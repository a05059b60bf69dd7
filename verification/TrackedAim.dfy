/** What the aimer (tasks/auto_aim/aimer.cpp) makes of the targets that the tracker
    (tasks/auto_aim/tracker.cpp) gives it.  Its guard for targets that do not spin reads
    state entry 8, the radius, and the tracker gives no target with a radius of half a
    metre or more. */
module TrackedAim {
  import A = Aimer
  import T = Target
  import K = Tracker

  /** Prediction, however long and in however many steps, leaves the radius alone. */
  lemma {:induction false} RadiusStays(m: T.Mean, dts: seq<real>)
    requires |m.x| == T.DIM
    ensures T.PredictMeans(m, dts).x[8] == m.x[8] && T.PredictMeans(m, dts).name == m.name
    decreases |dts|
  {
    if dts != [] {
      RadiusStaysOnce(m, dts[0]);
      RadiusStays(T.PredictMean(m, dts[0]), dts[1..]);
    }
  }

  lemma RadiusStaysOnce(m: T.Mean, dt: real)
    requires |m.x| == T.DIM
    ensures T.PredictMean(m, dt).x[8] == m.x[8] && T.PredictMean(m, dt).name == m.name
  {
  }

  /** The target that the aimer sees: the tracked one, predicted to the time of impact. */
  ghost predicate Sees(t: A.AimTarget, m: T.Mean, dts: seq<real>)
    requires |m.x| == T.DIM
  {
    t.name == m.name && t.radius == T.PredictMeans(m, dts).x[8]
  }

  /** The radius of a target that has not diverged passes the guard. */
  lemma SoundIsCalm(m: T.Mean, dts: seq<real>, t: A.AimTarget)
    requires |m.x| == T.DIM && !T.Diverged(m.x) && Sees(t, m, dts)
    ensures -2.0 <= t.radius <= 2.0
  {
    RadiusStays(m, dts);
  }

  /** Main result: in every run of the tracker, for every target it returns and however
      that is predicted, the radius is within 2: so the target counts as calm unless it is
      an outpost, which has limits of its own, and the choice by the limits of the
      configuration is never made. */
  lemma SpinningBranchIsDead(c: K.Config, ss: seq<K.State>, fs: seq<K.Frame>, k: nat, dts: seq<real>, t: A.AimTarget)
    requires K.SingleRun(c, ss, fs) && k < |ss| && ss[k].phase != K.Lost && Sees(t, ss[k].target.m, dts)
    ensures -2.0 <= t.radius <= 2.0
  {
    assert k > 0 && K.SingleStep(c, ss, fs, k - 1);
    SoundIsCalm(ss[k].target.m, dts, t);
  }

  /** The same of the second overload. */
  lemma SpinningBranchIsDeadInOmni(
    c: K.Config, ss: seq<K.State>, fs: seq<K.OmniFrame>, k: nat, dts: seq<real>, t: A.AimTarget)
    requires K.OmniRun(c, ss, fs) && k < |ss| && ss[k].phase != K.Lost && Sees(t, ss[k].target.m, dts)
    ensures -2.0 <= t.radius <= 2.0
  {
    K.NeverDiverged(c, ss, fs, k);
    SoundIsCalm(ss[k].target.m, dts, t);
  }
}
