/** The whole-robot target of tasks/auto_aim/target.cpp: constant-velocity
    prediction with a wrapped angle, the piecewise white noise model, and the
    choice of the plate that a measurement belongs to.  The state vector is
    x vx y vy z vz a w r l h. */
module Target {
  import opened Basics
  import opened Matrix
  import opened Angle
  import opened Armor
  import opened Ekf

  const DIM: nat := 11

  // ----- The prediction model -----

  /** Row i of the transition matrix: positions move by dt times their velocity. */
  function Transition(dt: real): (r: Mat)
    ensures Square(r, DIM)
  {
    RawMat(DIM, DIM, seq(DIM, i => seq(DIM, j =>
      if i == j then 1.0 else if j == i + 1 && i % 2 == 0 && i < 8 then dt else 0.0)))
  }

  /** An entry of one 2 x 2 block: a v, b v or c v of the source. */
  function BlockValue(dt: real, v: real, i: nat, j: nat): real {
    if i != j then dt * dt * dt / 2.0 * v
    else if i % 2 == 0 then dt * dt * dt * dt / 4.0 * v
    else dt * dt * v
  }

  /** One entry of the piecewise white noise matrix: 2 x 2 blocks on the diagonal. */
  function NoiseEntry(dt: real, v1: real, v2: real, i: nat, j: nat): real {
    if i >= 8 || j >= 8 || i / 2 != j / 2 then 0.0
    else BlockValue(dt, if i < 6 then v1 else v2, i, j)
  }

  function ProcessNoise(dt: real, v1: real, v2: real): (r: Mat)
    ensures Square(r, DIM)
  {
    RawMat(DIM, DIM, seq(DIM, i requires 0 <= i => seq(DIM, j requires 0 <= j => NoiseEntry(dt, v1, v2, i, j))))
  }

  function LinearVariance(name: ArmorName): real { if name == Outpost then 10.0 else 100.0 }
  function AngularVariance(name: ArmorName): real { if name == Outpost then 0.1 else 400.0 }

  function Drift(p: real, v: real, dt: real): real { p + Times(dt, v) }

  /** A position moves by dt times the velocity stored next to it. */
  function Moved(x: Vec, dt: real): (r: Vec)
    requires |x| == DIM
    ensures |r| == DIM
  {
    seq(DIM, i requires 0 <= i < DIM => if i % 2 == 0 && i < 8 then Drift(x[i], x[i + 1], dt) else x[i])
  }

  lemma ApplyTransition(dt: real, x: Vec)
    requires |x| == DIM
    ensures Apply(Transition(dt), x) == Moved(x, dt)
  {
    forall i | 0 <= i < DIM ensures Apply(Transition(dt), x)[i] == Moved(x, dt)[i] {
      var row := Transition(dt).row[i];
      DotComm(row, x);
      DotUnit(x, i);
      if i % 2 == 0 && i < 8 {
        var step := Scale(dt, Unit(DIM, i + 1));
        forall j | 0 <= j < DIM ensures row[j] == Add(Unit(DIM, i), step)[j] {}
        assert row == Add(Unit(DIM, i), step);
        DotAdd(Unit(DIM, i), step, x);
        DotScale(dt, Unit(DIM, i + 1), x);
        DotComm(Unit(DIM, i), x);
        DotComm(Unit(DIM, i + 1), x);
        DotUnit(x, i + 1);
      } else {
        assert row == Unit(DIM, i);
      }
    }
  }

  // ----- The noise is a covariance for every dt -----

  lemma NoiseSymmetric(dt: real, v1: real, v2: real)
    ensures Symmetric(ProcessNoise(dt, v1, v2))
  {
    var Q := ProcessNoise(dt, v1, v2);
    forall i | 0 <= i < DIM ensures Transpose(Q).row[i] == Q.row[i] {
      forall j | 0 <= j < DIM ensures Transpose(Q).row[i][j] == Q.row[i][j] {
        assert NoiseEntry(dt, v1, v2, i, j) == NoiseEntry(dt, v1, v2, j, i);
      }
    }
    assert Transpose(Q).row == Q.row;
  }

  /** The acceleration direction of one position-velocity pair. */
  function Push(dt: real, k: nat): (r: Vec)
    ensures |r| == DIM
  {
    Add(Scale(dt * dt / 2.0, Unit(DIM, k)), Scale(dt, Unit(DIM, k + 1)))
  }

  function ScaleMat(s: real, M: Mat): (r: Mat)
    ensures r.rows == M.rows && r.cols == M.cols
  {
    RawMat(M.rows, M.cols, seq(M.rows, i requires 0 <= i < M.rows => Scale(s, M.row[i])))
  }

  /** v times the rank-one covariance of a random push. */
  function PushNoise(dt: real, v: real, k: nat): (r: Mat)
    ensures Square(r, DIM)
  {
    ScaleMat(v, Outer(Push(dt, k), Push(dt, k)))
  }

  lemma PushEntry(dt: real, k: nat, i: nat)
    requires i < DIM
    ensures Push(dt, k)[i] == if i == k then dt * dt / 2.0 else if i == k + 1 then dt else 0.0
  {
  }

  lemma PushNoiseEntry(dt: real, v: real, k: nat, i: nat, j: nat)
    requires i < DIM && j < DIM
    ensures var a := Push(dt, k); PushNoise(dt, v, k).row[i][j] == v * (a[i] * a[j])
  {
  }

  /** One diagonal block: v times the product of two entries of the push. */
  lemma BlockEntry(dt: real, v: real, k: nat, i: nat, j: nat)
    requires i < DIM && j < DIM && k % 2 == 0
    ensures PushNoise(dt, v, k).row[i][j] ==
            if i / 2 != k / 2 || j / 2 != k / 2 then 0.0 else BlockValue(dt, v, i, j)
  {
    PushEntry(dt, k, i);
    PushEntry(dt, k, j);
    PushNoiseEntry(dt, v, k, i, j);
    if i / 2 == k / 2 && j / 2 == k / 2 {
      assert (i == k || i == k + 1) && (j == k || j == k + 1);
      BlockProducts(dt, v);
    } else {
      NoProduct(v, Push(dt, k)[i], Push(dt, k)[j]);
    }
  }

  lemma NoProduct(v: real, a: real, b: real)
    requires a == 0.0 || b == 0.0
    ensures v * (a * b) == 0.0
  {
    assert a * b == 0.0;
  }

  lemma BlockProducts(dt: real, v: real)
    ensures v * ((dt * dt / 2.0) * (dt * dt / 2.0)) == dt * dt * dt * dt / 4.0 * v
    ensures v * ((dt * dt / 2.0) * dt) == dt * dt * dt / 2.0 * v
    ensures v * (dt * (dt * dt / 2.0)) == dt * dt * dt / 2.0 * v
    ensures v * (dt * dt) == dt * dt * v
  {
  }

  /** The noise is the sum of four independent random pushes. */
  function PushSum(dt: real, v1: real, v2: real): (r: Mat)
    ensures Square(r, DIM)
  {
    MAdd(MAdd(PushNoise(dt, v1, 0), PushNoise(dt, v1, 2)), MAdd(PushNoise(dt, v1, 4), PushNoise(dt, v2, 6)))
  }

  lemma MAddEntry(A: Mat, B: Mat, i: nat, j: nat)
    requires A.rows == B.rows && A.cols == B.cols && i < A.rows && j < A.cols
    ensures MAdd(A, B).row[i][j] == A.row[i][j] + B.row[i][j]
  {
  }

  lemma PushSumEntry(dt: real, v1: real, v2: real, i: nat, j: nat)
    requires i < DIM && j < DIM
    ensures PushSum(dt, v1, v2).row[i][j] == NoiseEntry(dt, v1, v2, i, j)
  {
    var A, B, C, D := PushNoise(dt, v1, 0), PushNoise(dt, v1, 2), PushNoise(dt, v1, 4), PushNoise(dt, v2, 6);
    MAddEntry(A, B, i, j);
    MAddEntry(C, D, i, j);
    MAddEntry(MAdd(A, B), MAdd(C, D), i, j);
    BlockEntry(dt, v1, 0, i, j);
    BlockEntry(dt, v1, 2, i, j);
    BlockEntry(dt, v1, 4, i, j);
    BlockEntry(dt, v2, 6, i, j);
  }

  lemma NoiseIsPushes(dt: real, v1: real, v2: real)
    ensures ProcessNoise(dt, v1, v2) == PushSum(dt, v1, v2)
  {
    var Q, S := ProcessNoise(dt, v1, v2), PushSum(dt, v1, v2);
    forall i | 0 <= i < DIM ensures Q.row[i] == S.row[i] {
      forall j | 0 <= j < DIM ensures Q.row[i][j] == S.row[i][j] {
        PushSumEntry(dt, v1, v2, i, j);
      }
    }
    assert Q.row == S.row;
  }

  lemma ApplyScaleMat(s: real, M: Mat, x: Vec)
    requires |x| == M.cols
    ensures Apply(ScaleMat(s, M), x) == Scale(s, Apply(M, x))
  {
    forall i | 0 <= i < M.rows ensures Apply(ScaleMat(s, M), x)[i] == Scale(s, Apply(M, x))[i] {
      DotScale(s, M.row[i], x);
    }
  }

  lemma PushNoisePsd(dt: real, v: real, k: nat)
    requires v >= 0.0
    ensures Psd(PushNoise(dt, v, k))
  {
    var a := Push(dt, k);
    var O := Outer(a, a);
    forall x: Vec | |x| == DIM ensures Quad(PushNoise(dt, v, k), x) >= 0.0 {
      QuadOuter(a, x);
      TimesSign(Dot(a, x), Dot(a, x));
      ApplyScaleMat(v, O, x);
      DotScale(v, x, Apply(O, x));
      TimesSign(v, Quad(O, x));
    }
  }

  lemma NoiseIsCovariance(dt: real, v1: real, v2: real)
    requires v1 >= 0.0 && v2 >= 0.0
    ensures Covariance(ProcessNoise(dt, v1, v2), DIM)
  {
    NoiseSymmetric(dt, v1, v2);
    NoiseIsPushes(dt, v1, v2);
    PushNoisePsd(dt, v1, 0);
    PushNoisePsd(dt, v1, 2);
    PushNoisePsd(dt, v1, 4);
    PushNoisePsd(dt, v2, 6);
    PsdMAdd(PushNoise(dt, v1, 0), PushNoise(dt, v1, 2));
    PsdMAdd(PushNoise(dt, v1, 4), PushNoise(dt, v2, 6));
    PsdMAdd(MAdd(PushNoise(dt, v1, 0), PushNoise(dt, v1, 2)), MAdd(PushNoise(dt, v1, 4), PushNoise(dt, v2, 6)));
  }

  // ----- Covariance along every run of a target -----

  /** log1 and log2 stand for logarithms of numbers that are at least one. */
  function MeasurementNoise(log1: real, log2: real): (r: Mat)
    ensures Square(r, 4)
  {
    Diag([0.004, 0.004, log1 + 1.0, log2 / 200.0 + 0.09])
  }

  lemma MeasurementNoiseIsCovariance(log1: real, log2: real)
    requires log1 >= 0.0 && log2 >= 0.0
    ensures Covariance(MeasurementNoise(log1, log2), 4)
  {
    var d := [0.004, 0.004, log1 + 1.0, log2 / 200.0 + 0.09];
    SymmetricDiag(d);
    PsdDiag(d);
  }

  /** At an armour that faces the camera from nearby the noise is 0.004, 0.004, 1 and 0.09;
      the angle it is seen at adds to the third, its distance to the last. */
  lemma MeasurementNoiseGrows(log1: real, log2: real, x: Vec)
    requires |x| == 4
    ensures Quad(MeasurementNoise(log1, log2), x) ==
            Quad(Diag([0.004, 0.004, 1.0, 0.09]), x) + Times(log1, Times(x[2], x[2])) + Times(log2 / 200.0, Times(x[3], x[3]))
  {
    var d, e := [0.004, 0.004, log1 + 1.0, log2 / 200.0 + 0.09], [0.004, 0.004, 1.0, 0.09];
    QuadOfFour(d, x);
    QuadOfFour(e, x);
    TimesLaws(0.0, log1, 1.0, Times(x[2], x[2]));
    TimesLaws(0.0, log2 / 200.0, 0.09, Times(x[3], x[3]));
  }

  lemma QuadOfFour(d: Vec, x: Vec)
    requires |d| == |x| == 4
    ensures Quad(Diag(d), x) == Times(d[0], Times(x[0], x[0])) + Times(d[1], Times(x[1], x[1]))
                               + Times(d[2], Times(x[2], x[2])) + Times(d[3], Times(x[3], x[3]))
  {
    ApplyDiag(d, x);
    var h := Hadamard(d, x);
    DotOfFour(x, h);
    forall i | 0 <= i < 4 ensures Times(x[i], h[i]) == Times(d[i], Times(x[i], x[i])) {
      Swapped(x[i], d[i]);
    }
  }

  lemma Swapped(x: real, d: real)
    ensures Times(x, Times(d, x)) == Times(d, Times(x, x))
  {
    assert x * (d * x) == d * (x * x);
  }

  lemma DotOfFour(a: Vec, b: Vec)
    requires |a| == |b| == 4
    ensures Dot(a, b) == Times(a[0], b[0]) + Times(a[1], b[1]) + Times(a[2], b[2]) + Times(a[3], b[3])
  {
    assert a[1..][1..] == a[2..] && a[2..][1..] == a[3..] && a[3..][1..] == [];
    assert b[1..][1..] == b[2..] && b[2..][1..] == b[3..] && b[3..][1..] == [];
    assert Dot(a[3..], b[3..]) == Times(a[3], b[3]);
    assert Dot(a[2..], b[2..]) == Times(a[2], b[2]) + Dot(a[3..], b[3..]);
    assert Dot(a[1..], b[1..]) == Times(a[1], b[1]) + Dot(a[2..], b[2..]);
  }

  datatype Action =
    | Predicts(dt: real)
    | Measures(H: Mat, log1: real, log2: real, K: Mat)

  ghost predicate ActionOk(a: Action) {
    a.Measures? ==> a.H.rows == 4 && a.H.cols == DIM && a.K.rows == DIM && a.K.cols == 4
                    && a.log1 >= 0.0 && a.log2 >= 0.0
  }

  function AsEvent(name: ArmorName, a: Action): Event {
    match a
    case Predicts(dt) =>
      Event.Predict(Transition(dt), ProcessNoise(dt, LinearVariance(name), AngularVariance(name)))
    case Measures(H, log1, log2, K) => Event.Update(H, MeasurementNoise(log1, log2), K)
  }

  lemma ActionEvent(name: ArmorName, a: Action)
    requires ActionOk(a)
    ensures EventOk(AsEvent(name, a), DIM)
  {
    match a
    case Predicts(dt) => NoiseIsCovariance(dt, LinearVariance(name), AngularVariance(name));
    case Measures(_, log1, log2, _) => MeasurementNoiseIsCovariance(log1, log2);
  }

  /** From any diagonal start with non-negative entries, through any predictions
      (of any, even negative, duration) and any measurements with any gains. */
  lemma TargetCovarianceAlwaysValid(name: ArmorName, P0: Vec, run: seq<Action>)
    requires |P0| == DIM && forall i :: 0 <= i < DIM ==> P0[i] >= 0.0
    requires forall i :: 0 <= i < |run| ==> ActionOk(run[i])
    ensures var events := seq(|run|, i requires 0 <= i < |run| => AsEvent(name, run[i]));
            && (forall i :: 0 <= i < |events| ==> EventOk(events[i], DIM))
            && Covariance(After(Diag(P0), DIM, events), DIM)
  {
    var events := seq(|run|, i requires 0 <= i < |run| => AsEvent(name, run[i]));
    forall i | 0 <= i < |events| ensures EventOk(events[i], DIM) {
      ActionEvent(name, run[i]);
    }
    SymmetricDiag(P0);
    PsdDiag(P0);
    RunKeepsCovariance(Diag(P0), DIM, events);
  }

  /** What a target's filter makes of its covariance in a step of length dt. */
  function PredictedFor(P: Mat, dt: real, v1: real, v2: real): (r: Mat)
    requires Square(P, DIM)
    ensures Square(r, DIM)
  {
    Predicted(Transition(dt), P, ProcessNoise(dt, v1, v2))
  }

  /** The covariance, unlike the mean below, does depend on the partition: from any
      covariance, two steps give what one step of their total length gives exactly
      when one of them has no length. */
  lemma CovarianceSplitsIff(P: Mat, a: real, b: real, v1: real, v2: real)
    requires Square(P, DIM) && v1 > 0.0
    ensures PredictedFor(PredictedFor(P, a, v1, v2), b, v1, v2) == PredictedFor(P, a + b, v1, v2)
            <==> a == 0.0 || b == 0.0
  {
    var once := PredictedFor(P, a, v1, v2);
    if a == 0.0 {
      NoTimeNoChange(P, v1, v2);
    } else if b == 0.0 {
      NoTimeNoChange(once, v1, v2);
    } else {
      SplitDiffers(P, a, b, v1, v2);
    }
  }

  lemma SplitDiffers(P: Mat, a: real, b: real, v1: real, v2: real)
    requires Square(P, DIM) && v1 > 0.0 && a != 0.0 && b != 0.0
    ensures PredictedFor(PredictedFor(P, a, v1, v2), b, v1, v2) != PredictedFor(P, a + b, v1, v2)
  {
    VelocityVariance(P, a, v1, v2);
    VelocityVariance(PredictedFor(P, a, v1, v2), b, v1, v2);
    VelocityVariance(P, a + b, v1, v2);
    SplitVariance(a, b, v1);
  }

  /** The variance of a velocity grows by dt^2 v1 in a step. */
  lemma SplitVariance(a: real, b: real, v: real)
    requires v > 0.0 && a != 0.0 && b != 0.0
    ensures a * a * v + b * b * v != (a + b) * (a + b) * v
  {
    assert (a + b) * (a + b) * v - a * a * v - b * b * v == 2.0 * (a * b) * v;
    assert a * b != 0.0;
  }

  lemma NoTimeNoChange(P: Mat, v1: real, v2: real)
    requires Square(P, DIM)
    ensures PredictedFor(P, 0.0, v1, v2) == P
  {
    var I, Q, C := Transition(0.0), ProcessNoise(0.0, v1, v2), Congruence(Transition(0.0), P);
    forall i | 0 <= i < DIM ensures I.row[i] == Identity(DIM).row[i] {}
    assert I.row == Identity(DIM).row;
    SymmetricDiag(seq(DIM, i => 1.0));
    MulIdentity(P);
    forall i | 0 <= i < DIM ensures MAdd(C, Q).row[i] == P.row[i] {
      forall j | 0 <= j < DIM ensures MAdd(C, Q).row[i][j] == P.row[i][j] {
        MAddEntry(C, Q, i, j);
        assert Q.row[i][j] == 0.0;
      }
    }
    assert MAdd(C, Q).row == P.row;
  }

  /** For example two steps of one second from a covariance of zero. */
  lemma CovarianceDependsOnPartition(v1: real, v2: real)
    requires v1 > 0.0
    ensures var Z := Diag(Zeros(DIM));
            PredictedFor(PredictedFor(Z, 1.0, v1, v2), 1.0, v1, v2) != PredictedFor(Z, 2.0, v1, v2)
  {
    CovarianceSplitsIff(Diag(Zeros(DIM)), 1.0, 1.0, v1, v2);
  }

  lemma VelocityVariance(P: Mat, dt: real, v1: real, v2: real)
    requires Square(P, DIM)
    ensures Quad(Predicted(Transition(dt), P, ProcessNoise(dt, v1, v2)), Unit(DIM, 1)) ==
            Quad(P, Unit(DIM, 1)) + dt * dt * v1
  {
    var e, F, Q := Unit(DIM, 1), Transition(dt), ProcessNoise(dt, v1, v2);
    QuadMAdd(Congruence(F, P), Q, e);
    QuadCongruence(F, P, e);
    forall j | 0 <= j < DIM ensures Apply(Transpose(F), e)[j] == e[j] {
      DotUnit(Col(F, j), 1);
    }
    assert Apply(Transpose(F), e) == e;
    DotComm(e, Apply(Q, e));
    DotUnit(Apply(Q, e), 1);
    DotUnit(Q.row[1], 1);
  }

  // ----- The mean state -----

  function Diverged(x: Vec): bool
    requires |x| == DIM
  {
    !(0.05 < x[8] < 0.5 && 0.05 < x[8] + x[9] < 0.5)
  }

  /** What a prediction reads and writes apart from the covariance. */
  datatype Mean = Mean(name: ArmorName, updateCount: int, isConverged: bool, x: Vec)

  function Convergence(m: Mean): bool
    requires |m.x| == DIM
  {
    || m.isConverged
    || (m.name != Outpost && m.updateCount > 3 && !Diverged(m.x))
    || (m.name == Outpost && m.updateCount > 10 && !Diverged(m.x))
  }

  /** A converged outpost spins at one of two known speeds. */
  function SpinClamped(m: Mean): (r: Vec)
    requires |m.x| == DIM
    ensures |r| == DIM
  {
    if Convergence(m) && m.name == Outpost && Abs(m.x[7]) > 2.0
    then m.x[7 := if m.x[7] > 0.0 then 2.51 else -2.51] else m.x
  }

  function WrapAngle(x: Vec): (r: Vec)
    requires |x| == DIM
    ensures |r| == DIM
  {
    x[6 := Wrap(x[6])]
  }

  function PredictMean(m: Mean, dt: real): (r: Mean)
    requires |m.x| == DIM
    ensures |r.x| == DIM
  {
    m.(isConverged := Convergence(m), x := WrapAngle(Moved(SpinClamped(m), dt)))
  }

  function PredictMeans(m: Mean, dts: seq<real>): (r: Mean)
    requires |m.x| == DIM
    ensures |r.x| == DIM
    decreases |dts|
  {
    if dts == [] then m else PredictMeans(PredictMean(m, dts[0]), dts[1..])
  }

  function Total(dts: seq<real>): real {
    if dts == [] then 0.0 else dts[0] + Total(dts[1..])
  }

  lemma DriftTwice(p: real, v: real, a: real, b: real)
    ensures Drift(Drift(p, v, a), v, b) == Drift(p, v, a + b)
    ensures Wrap(Drift(Wrap(Drift(p, v, a)), v, b)) == Wrap(Drift(p, v, a + b))
  {
    WrapAdd(p + a * v, b * v);
    assert p + a * v + b * v == p + (a + b) * v;
  }

  lemma MovedTwiceAt(x: Vec, a: real, b: real, i: nat)
    requires |x| == DIM && i < DIM
    ensures WrapAngle(Moved(WrapAngle(Moved(x, a)), b))[i] == WrapAngle(Moved(x, a + b))[i]
  {
    var y := WrapAngle(Moved(x, a));
    if i % 2 == 0 && i < 8 {
      assert y[i + 1] == x[i + 1];
      assert y[i] == if i == 6 then Wrap(Drift(x[i], x[i + 1], a)) else Drift(x[i], x[i + 1], a);
      DriftTwice(x[i], x[i + 1], a, b);
    }
  }

  lemma MovedTwice(x: Vec, a: real, b: real)
    requires |x| == DIM
    ensures WrapAngle(Moved(WrapAngle(Moved(x, a)), b)) == WrapAngle(Moved(x, a + b))
  {
    forall i | 0 <= i < DIM
      ensures WrapAngle(Moved(WrapAngle(Moved(x, a)), b))[i] == WrapAngle(Moved(x, a + b))[i]
    {
      MovedTwiceAt(x, a, b, i);
    }
  }

  lemma PredictTwice(m: Mean, a: real, b: real)
    requires |m.x| == DIM
    ensures PredictMean(PredictMean(m, a), b) == PredictMean(m, a + b)
  {
    var once := PredictMean(m, a);
    assert once.x[8] == m.x[8] && once.x[9] == m.x[9] && once.x[7] == SpinClamped(m)[7];
    assert Convergence(once) == Convergence(m);
    assert SpinClamped(once) == once.x;
    MovedTwice(SpinClamped(m), a, b);
  }

  /** Predicting through any partition of a time interval, with or without the
      spin clamp, gives the same state as one step. */
  lemma {:induction false} PredictionIsPathIndependent(m: Mean, dts: seq<real>)
    requires |m.x| == DIM && dts != []
    ensures PredictMeans(m, dts) == PredictMean(m, Total(dts))
    decreases |dts|
  {
    if |dts| == 1 {
      assert dts[1..] == [];
      assert Total(dts) == dts[0] + Total(dts[1..]) == dts[0];
    } else {
      PredictionIsPathIndependent(PredictMean(m, dts[0]), dts[1..]);
      PredictTwice(m, dts[0], Total(dts[1..]));
    }
  }

  // ----- Which plate a measurement belongs to -----

  /** A predicted plate: its distance and its two angular differences from the
      measured armour. */
  datatype Plate = Plate(distance: real, yawDiff: real, directionDiff: real)

  function AngleError(p: Plate): (e: real)
    ensures 0.0 <= e <= TWO_PI
  {
    Abs(Wrap(p.yawDiff)) + Abs(Wrap(p.directionDiff))
  }

  /** An order in which sorting by distance may leave the plates. */
  ghost predicate SortedByDistance(plates: seq<Plate>, order: seq<nat>) {
    && |order| == |plates|
    && (forall i :: 0 <= i < |order| ==> order[i] < |plates|)
    && (forall i, j :: 0 <= i < j < |order| ==> order[i] != order[j])
    && (forall i, j :: 0 <= i < j < |order| ==> plates[order[i]].distance <= plates[order[j]].distance)
  }

  /** Of the three nearest plates, the k-th is the first with the least error. */
  ghost predicate FirstLeast(plates: seq<Plate>, order: seq<nat>, k: nat)
    requires |plates| >= 3 && SortedByDistance(plates, order) && k < 3
  {
    forall i :: 0 <= i < 3 ==>
      && AngleError(plates[order[k]]) <= AngleError(plates[order[i]])
      && (i < k ==> AngleError(plates[order[k]]) < AngleError(plates[order[i]]))
  }

  /** The loop over the three nearest plates: the first one with the least error. */
  method MatchPlate(plates: seq<Plate>, order: seq<nat>) returns (id: nat)
    requires |plates| >= 3 && SortedByDistance(plates, order)
    ensures exists k :: 0 <= k < 3 && id == order[k] && FirstLeast(plates, order, k)
  {
    var least := 10000000000.0;
    id := 0;
    ghost var k := 0;
    for i := 0 to 3
      invariant i > 0 ==> 0 <= k < i && id == order[k] && least == AngleError(plates[id])
      invariant i == 0 ==> least == 10000000000.0
      invariant forall j :: 0 <= j < i ==> least <= AngleError(plates[order[j]])
      invariant i > 0 ==> forall j :: 0 <= j < k ==> least < AngleError(plates[order[j]])
    {
      var error := AngleError(plates[order[i]]);
      if Abs(error) < Abs(least) {
        id, least, k := order[i], error, i;
      }
    }
  }

  // ----- The target object -----

  function XAdd(a: Vec, b: Vec): (r: Vec)
    requires |a| == |b| == DIM
    ensures |r| == DIM
  {
    WrapAngle(Add(a, b))
  }

  ghost predicate AddsWithWrap(f: (Vec, Vec) --> Vec)
    requires Combines(f, DIM)
  {
    forall a: Vec, b: Vec :: |a| == |b| == DIM ==> f(a, b) == XAdd(a, b)
  }

  function ZSubtract(a: Vec, b: Vec): (r: Vec)
    requires |a| == |b| == 4
    ensures |r| == 4
  {
    var c := Sub(a, b);
    [Wrap(c[0]), Wrap(c[1]), c[2], Wrap(c[3])]
  }

  /** The residual r leads from the angle b to the angle a, the short way round. */
  predicate LeadsTo(a: real, b: real, r: real) { -PI < r <= PI && Wrap(b + r) == Wrap(a) }

  /** The residual leads from b to a: the angles to within whole turns, the distance
      exactly. */
  lemma ResidualLeads(a: Vec, b: Vec)
    requires |a| == |b| == 4
    ensures var r := ZSubtract(a, b);
      && LeadsTo(a[0], b[0], r[0]) && LeadsTo(a[1], b[1], r[1]) && LeadsTo(a[3], b[3], r[3])
      && b[2] + r[2] == a[2]
  {
    Leads(a[0], b[0]);
    Leads(a[1], b[1]);
    Leads(a[3], b[3]);
  }

  lemma Leads(a: real, b: real)
    ensures LeadsTo(a, b, Wrap(a - b))
  {
    WrapAdd(a - b, b);
    assert Wrap(a - b) + b == b + Wrap(a - b) && a - b + b == a;
  }

  /** It is zero exactly when the two measurements are the same. */
  lemma ResidualIsZeroIff(a: Vec, b: Vec)
    requires |a| == |b| == 4
    ensures ZSubtract(a, b) == Zeros(4) <==>
            a[2] == b[2] && Wrap(a[0]) == Wrap(b[0]) && Wrap(a[1]) == Wrap(b[1]) && Wrap(a[3]) == Wrap(b[3])
  {
    SameAngle(a[0], b[0]);
    SameAngle(a[1], b[1]);
    SameAngle(a[3], b[3]);
    var r, z := ZSubtract(a, b), Zeros(4);
    assert r == z <==> r[0] == 0.0 && r[1] == 0.0 && r[2] == 0.0 && r[3] == 0.0;
  }

  lemma SameAngle(a: real, b: real)
    ensures Wrap(a - b) == 0.0 <==> Wrap(a) == Wrap(b)
  {
    Leads(a, b);
    WrapAdd(a, -b);
    WrapAdd(b, -b);
    WrapIdle(0.0);
    assert Wrap(a) + -b == Wrap(a) - b && Wrap(b) + -b == Wrap(b) - b && a + -b == a - b && b + -b == 0.0;
  }

  /** The correction is added, to within whole turns of the angle. */
  lemma CorrectionIsAdded(a: Vec, b: Vec)
    requires |a| == |b| == DIM
    ensures var r := XAdd(a, b);
      && (forall i :: 0 <= i < DIM && i != 6 ==> r[i] == a[i] + b[i])
      && -PI < r[6] <= PI && Wrap(r[6]) == Wrap(a[6] + b[6])
  {
    WrapIdle(Wrap(a[6] + b[6]));
  }

  /** How the filter sees one plate: the measurement function with its Jacobian at
      the current state, and what the three inverse() calls return for it. */
  datatype PlateModel = PlateModel(H: Mat, h: Vec --> Vec, Sinv: Mat, S1inv: Mat, P1inv: Mat)
  {
    ghost predicate Ok() {
      && H.rows == 4 && H.cols == DIM && Maps(h, DIM, 4)
      && Square(Sinv, 4) && Square(S1inv, 4) && Square(P1inv, DIM)
    }

    function Gain(P: Mat): (K: Mat)
      requires Square(P, DIM) && H.rows == 4 && H.cols == DIM && Square(Sinv, 4)
      ensures K.rows == DIM && K.cols == 4
    {
      Mul(Mul(P, Transpose(H)), Sinv)
    }
  }

  /** One measured armour, with the inputs that the trigonometry would produce for
      each plate of the target. */
  datatype Observation = Observation(
    z: Vec, log1: real, log2: real, plates: seq<Plate>, order: seq<nat>, models: seq<PlateModel>)
  {
    ghost predicate Ok() {
      && |z| == 4 && log1 >= 0.0 && log2 >= 0.0
      && |plates| >= 3 && SortedByDistance(plates, order)
      && |models| == |plates| && forall i :: 0 <= i < |models| ==> models[i].Ok()
    }

    /** Of the three nearest plates, id is the first with the least angle error. */
    ghost predicate Matches(id: nat)
      requires Ok()
    {
      exists k :: 0 <= k < 3 && id == order[k] && FirstLeast(plates, order, k)
    }
  }

  class Target {
    const name: ArmorName
    const armorType: ArmorType
    const priority: Priority
    const armorNum: nat
    const ekf: ExtendedKalmanFilter
    var jumped: bool
    var lastId: nat
    var updateCount: int
    var switchCount: int
    var isSwitch: bool
    var isConverged: bool
    var t: real

    ghost predicate Valid()
      reads this, ekf
    {
      && ekf.Valid() && |ekf.x| == DIM && Covariance(ekf.P, DIM)
      && Combines(ekf.xAdd, DIM) && AddsWithWrap(ekf.xAdd)
    }

    ghost function State(): Mean
      reads this, ekf
    {
      Mean(name, updateCount, isConverged, ekf.x)
    }

    constructor (name: ArmorName, armorType: ArmorType, priority: Priority, start: real,
                 armorNum: nat, x0: Vec, P0: Vec)
      requires |x0| == |P0| == DIM && forall i :: 0 <= i < DIM ==> P0[i] >= 0.0
      ensures Valid() && fresh(ekf) && State() == Mean(name, 0, false, x0) && t == start && !jumped
      ensures this.armorNum == armorNum && ekf.recentNisFailures == [0]
    {
      this.name, this.armorType, this.priority, this.armorNum := name, armorType, priority, armorNum;
      jumped, lastId, updateCount, switchCount, isSwitch, isConverged := false, 0, 0, 0, false, false;
      t := start;
      SymmetricDiag(P0);
      PsdDiag(P0);
      ekf := new ExtendedKalmanFilter(x0, Diag(P0), (a: Vec, b: Vec) requires |a| == |b| == DIM => XAdd(a, b));
    }

    method Convergened() returns (r: bool)
      requires Valid()
      modifies this`isConverged
      ensures Valid() && r == isConverged == old(Convergence(State()))
      ensures isConverged == (old(isConverged) || (!Diverged(ekf.x) && updateCount > if name == Outpost then 10 else 3))
    {
      if name != Outpost && updateCount > 3 && !Diverged(ekf.x) {
        isConverged := true;
      }
      if name == Outpost && updateCount > 10 && !Diverged(ekf.x) {
        isConverged := true;
      }
      return isConverged;
    }

    /** The special case for outposts that precedes every prediction. */
    method ClampSpin()
      requires Valid()
      modifies this`isConverged, ekf`x
      ensures Valid() && isConverged == old(Convergence(State())) && ekf.x == old(SpinClamped(State()))
      ensures forall i :: 0 <= i < DIM && i != 7 ==> ekf.x[i] == old(ekf.x)[i]
      ensures ekf.x[7] == if isConverged && name == Outpost && old(ekf.x)[7] > 2.0 then 2.51
                          else if isConverged && name == Outpost && old(ekf.x)[7] < -2.0 then -2.51 else old(ekf.x)[7]
    {
      var converged := Convergened();
      if converged && name == Outpost && Abs(ekf.x[7]) > 2.0 {
        ekf.x := ekf.x[7 := if ekf.x[7] > 0.0 then 2.51 else -2.51];
      }
    }

    method PredictFor(dt: real)
      requires Valid()
      modifies this`isConverged, ekf
      ensures Valid() && State() == PredictMean(old(State()), dt)
      // outposts hardly move and spin at a known speed
      ensures name == Outpost ==> ekf.P == PredictedFor(old(ekf.P), dt, 10.0, 0.1)
      ensures name != Outpost ==> ekf.P == PredictedFor(old(ekf.P), dt, 100.0, 400.0)
      ensures ekf.recentNisFailures == old(ekf.recentNisFailures)
    {
      var F := Transition(dt);
      var v1, v2 := LinearVariance(name), AngularVariance(name);
      var Q := ProcessNoise(dt, v1, v2);
      ClampSpin();
      NoiseIsCovariance(dt, v1, v2);
      ApplyTransition(dt, ekf.x);
      var _ := ekf.Predict(F, Q, (x: Vec) requires |x| == DIM => WrapAngle(Apply(F, x)));
    }

    method PredictTo(now: real)
      requires Valid()
      modifies this`isConverged, this`t, ekf
      ensures Valid() && State() == PredictMean(old(State()), now - old(t)) && t == now
      ensures ekf.recentNisFailures == old(ekf.recentNisFailures)
    {
      PredictFor(now - t);
      t := now;
    }

    /** The matching loop and the counters of update. */
    method MatchAndCount(o: Observation)
      requires o.Ok() && |o.plates| == armorNum
      modifies this`jumped, this`isSwitch, this`switchCount, this`lastId, this`updateCount
      ensures updateCount == old(updateCount) + 1 && lastId < armorNum
      ensures o.Matches(lastId)
      ensures jumped == (old(jumped) || lastId != 0)
      ensures isSwitch == (lastId != old(lastId))
      ensures switchCount == old(switchCount) + if isSwitch then 1 else 0
    {
      var id := MatchPlate(o.plates, o.order);
      if id != 0 { jumped := true; }
      isSwitch := id != lastId;
      if isSwitch { switchCount := switchCount + 1; }
      lastId := id;
      updateCount := updateCount + 1;
    }

    /** update_ypda, with the model of one plate. */
    method UpdateWith(o: Observation, m: PlateModel)
      requires Valid() && |o.z| == 4 && o.log1 >= 0.0 && o.log2 >= 0.0 && m.Ok()
      modifies ekf
      ensures Valid()
      ensures ekf.P == Joseph(old(ekf.P), m.H, MeasurementNoise(o.log1, o.log2), m.Gain(old(ekf.P)))
      ensures ekf.x == XAdd(old(ekf.x), Apply(m.Gain(old(ekf.P)), ZSubtract(o.z, m.h(old(ekf.x)))))
      ensures ekf.recentNisFailures == Slide(old(ekf.recentNisFailures), ekf.lastNis > NIS_THRESHOLD)
    {
      MeasurementNoiseIsCovariance(o.log1, o.log2);
      var _ := ekf.Update(o.z, m.H, MeasurementNoise(o.log1, o.log2), m.h,
                          (a: Vec, b: Vec) requires |a| == |b| == 4 => ZSubtract(a, b),
                          m.Sinv, m.S1inv, m.P1inv);
    }

    method Update(o: Observation)
      requires Valid() && o.Ok() && |o.plates| == armorNum
      modifies this`jumped, this`isSwitch, this`switchCount, this`lastId, this`updateCount, ekf
      ensures Valid() && updateCount == old(updateCount) + 1 && lastId < armorNum && o.Matches(lastId)
      ensures jumped == (old(jumped) || lastId != 0)
      ensures isSwitch == (lastId != old(lastId))
      ensures switchCount == old(switchCount) + if isSwitch then 1 else 0
      // the filter is updated with the model of the matched plate
      ensures ekf.P == Joseph(old(ekf.P), o.models[lastId].H, MeasurementNoise(o.log1, o.log2),
                              o.models[lastId].Gain(old(ekf.P)))
      ensures ekf.x == XAdd(old(ekf.x), Apply(o.models[lastId].Gain(old(ekf.P)),
                                              ZSubtract(o.z, o.models[lastId].h(old(ekf.x)))))
      ensures -PI < ekf.x[6] <= PI
      ensures ekf.recentNisFailures == Slide(old(ekf.recentNisFailures), ekf.lastNis > NIS_THRESHOLD)
    {
      MatchAndCount(o);
      var m := o.models[lastId];
      UpdateWith(o, m);
    }
  }
}
