/** What the tracker of tasks/auto_aim/tracker.cpp keeps of the armours it has seen: where
    it puts a new target, and where it expects one that it does not see. */
module TrackedPlates {
  import opened Matrix
  import opened Angle
  import opened Armor
  import opened Ekf
  import opened KnownShape
  import opened Plates
  import opened Tracker
  import T = Target

  // ----- A new target -----

  /** The pose solver gives the cosine and sine of the yaw that it gives. */
  ghost predicate Posed(trig: Trig, a: Armour) {
    trig.Ok() && a.cosYaw == trig.cos(a.yaw) && a.sinYaw == trig.sin(a.yaw)
  }

  /** A prediction leaves a target alone that has no speed. */
  lemma {:induction false} RestStays(m: T.Mean, dts: seq<real>)
    requires |m.x| == T.DIM && m.x[1] == m.x[3] == m.x[5] == m.x[7] == 0.0
    ensures var x := T.PredictMeans(m, dts).x;
      && (forall i :: 0 <= i < T.DIM && i != 6 ==> x[i] == m.x[i]) && Wrap(x[6]) == Wrap(m.x[6])
    decreases |dts|
  {
    if dts != [] {
      TimesLaws(0.0, dts[0], 0.0, 0.0);
      WrapIdle(Wrap(m.x[6]));
      RestStays(T.PredictMean(m, dts[0]), dts[1..]);
    }
  }

  /** Main result 1: plate 0 of a new target is the armour it was built on, there and then
      and after every prediction; and the kind of the armour gives the number of plates
      and the radius. */
  lemma NewTargetStandsOnTheArmour(trig: Trig, a: Armour, t: real, dts: seq<real>)
    requires Posed(trig, a)
    ensures var g := NewTarget(a, t);
      && g.armorNum > 0
      && PlateAt(trig, T.PredictMeans(g.m, dts).x, g.armorNum, 0) == Position(a.x, a.y, a.z, Wrap(a.yaw))
  {
    var g := NewTarget(a, t);
    var x := T.PredictMeans(g.m, dts).x;
    RestStays(g.m, dts);
    FirstPlate(trig, x, g.armorNum);
    PeriodIsTurn(trig, x[6], a.yaw);
  }

  lemma FirstPlate(trig: Trig, x: Vec, plates: nat)
    requires |x| == T.DIM && plates > 0
    ensures var c := Wrap(x[6]);
      PlateAt(trig, x, plates, 0) == Position(x[0] - Times(x[8], trig.cos(c)), x[2] - Times(x[8], trig.sin(c)), x[4], c)
  {
    assert Part(0, plates) == 0.0;
  }

  lemma PeriodIsTurn(trig: Trig, a: real, b: real)
    requires trig.Ok() && Wrap(a) == Wrap(b)
    ensures trig.cos(Wrap(a)) == trig.cos(b) && trig.sin(Wrap(a)) == trig.sin(b)
  {
  }

  lemma KindOfNewTarget(a: Armour, t: real)
    ensures var g := NewTarget(a, t);
      && g.t == t && g.m.updateCount == 0 && !g.m.isConverged && g.m.x[9] == g.m.x[10] == 0.0
      && (a.armorType == Big && a.name in {Three, Four, Five} ==> g.armorNum == 2 && g.m.x[8] == 0.2)
      && (a.name == Outpost ==> g.armorNum == 3 && g.m.x[8] == 0.2765)
      && (a.name == Base ==> g.armorNum == 3 && g.m.x[8] == 0.3205)
      && (a.name !in {Outpost, Base} && (a.armorType == Small || a.name !in {Three, Four, Five}) ==>
            g.armorNum == 4 && g.m.x[8] == 0.2)
  {
  }

  /** A new target starts with a covariance; the second radius and height of an outpost or
      a base are certain from the start, and of nothing else is anything. */
  lemma StartIsCovariance(a: Armour)
    ensures var d := StartVariances(a);
      && Covariance(Diag(d), T.DIM)
      && (forall i :: 0 <= i < T.DIM ==> (d[i] == 0.0 <==> (i == 9 || i == 10) && a.name in {Outpost, Base}))
      && (a.name in {Outpost, Base} ==> Certain(Diag(d), 9) && Certain(Diag(d), 10))
      && d[0] == d[2] == d[4] == 1.0 && d[1] == d[3] == 64.0 && d[5] == (if a.name == Outpost then 81.0 else 64.0)
      && d[6] == 0.4 && d[7] == 100.0 && d[8] == (if a.name in {Outpost, Base} then 0.0001 else 1.0)
      && d[9] == d[10] == (if a.name in {Outpost, Base} then 0.0 else 1.0)
  {
    var d := StartVariances(a);
    SymmetricDiag(d);
    PsdDiag(d);
    if a.name in {Outpost, Base} {
      DiagonalIsCertain(d, 9);
      DiagonalIsCertain(d, 10);
    }
  }

  // ----- A target that is seen -----

  /** The armours of a list that belong to the target, in order. */
  function Own(g: Tracked, s: seq<Armour>): seq<Armour> {
    if s == [] then []
    else
      var a := s[|s| - 1];
      Own(g, s[..|s| - 1]) + if a.name == g.m.name && a.armorType == g.armorType then [a] else []
  }

  function Fails(s: seq<Armour>): seq<bool> { seq(|s|, i requires 0 <= i < |s| => s[i].nisFailed) }

  /** An armour of the enemy that the tracker is looking for: any, if it is lost or has
      waited too long, and else one of the target's name and type. */
  predicate LookedFor(s: State, f: Frame, a: Armour) {
    && (f.enemy.Some? ==> a.color == f.enemy.value)
    && (s.phase != Lost && f.t - s.last <= 0.1 ==> a.name == s.target.m.name && a.armorType == s.target.armorType)
  }

  /** A frame is found exactly when it shows such an armour. */
  lemma FoundIff(s: State, f: Frame)
    ensures Found(s, f) <==> exists a :: a in f.armours && LookedFor(s, f, a)
  {
    var armours := Arranged(Enemies(f));
    ArrangedPrefers(Enemies(f));
    if Found(s, f) {
      var i :| 0 <= i < |armours| && (AfterTimeout(s, f.t) != Lost ==> Matches(armours[i], s.target));
      assert armours[i] in armours;
      assert LookedFor(s, f, armours[i]);
    }
    if a :| a in f.armours && LookedFor(s, f, a) {
      assert a in Enemies(f) && a in armours;
      var i :| 0 <= i < |armours| && armours[i] == a;
      assert AfterTimeout(s, f.t) != Lost ==> Matches(armours[i], s.target);
    }
  }

  lemma {:induction false} SlidesAppend(w: seq<int>, fails: seq<bool>, f: bool)
    ensures Slides(w, fails + [f]) == Slide(Slides(w, fails), f)
    decreases |fails|
  {
    if fails == [] {
      assert fails + [f] == [f] && [f][1..] == [];
    } else {
      assert (fails + [f])[0] == fails[0] && (fails + [f])[1..] == fails[1..] + [f];
      SlidesAppend(Slide(w, fails[0]), fails[1..], f);
    }
  }

  /** Main result 2: absorbing the armours of a frame counts each that belongs to the
      target, keeps the estimate of the last of them and records every test in order. */
  lemma {:induction false} AbsorbsItsOwn(g: Tracked, s: seq<Armour>)
    ensures var r, own := AbsorbAll(g, s), Own(g, s);
      && r.m.updateCount == g.m.updateCount + |own|
      && r.m.x == (if own == [] then g.m.x else own[|own| - 1].filtered)
      && r.window == Slides(g.window, Fails(own))
      && r.m.isConverged == g.m.isConverged && r.t == g.t && r.armorNum == g.armorNum
    decreases |s|
  {
    if s != [] {
      var n := |s| - 1;
      AbsorbsItsOwn(g, s[..n]);
      var own, r := Own(g, s[..n]), AbsorbAll(g, s[..n]);
      if Matches(s[n], g) {
        SlidesAppend(g.window, Fails(own), s[n].nisFailed);
        assert Fails(own + [s[n]]) == Fails(own) + [s[n].nisFailed];
        assert AbsorbAll(g, s) == Absorb(r, s[n]) && Own(g, s) == own + [s[n]];
      } else {
        assert AbsorbAll(g, s) == r && Own(g, s) == own + [] == own;
      }
    }
  }

  // ----- A target that is not seen -----

  /** Where a target will be at time t, by one prediction from the last it was seen. */
  function Expected(g: Tracked, t: real): T.Mean { T.PredictMean(g.m, t - g.t) }

  lemma FrameCoasts(c: Config, s: State, f: Frame)
    requires Locked(s.phase) && !Found(s, f) && f.t - s.last <= 0.1
    ensures Single(c, s, f).target == Coasted(s.target, f.t)
  {
    var armours := Arranged(Enemies(f));
    SeenSame(armours, s.target, PredictedTo(s.target, f.t));
    UnseenAbsorbsNothing(PredictedTo(s.target, f.t), armours);
  }

  ghost predicate TimelyAt(ss: seq<State>, fs: seq<Frame>, j: int)
    requires |ss| == |fs| + 1 && 0 <= j < |fs|
  {
    fs[j].t - ss[j].last <= 0.1
  }

  lemma StepCoasts(c: Config, ss: seq<State>, fs: seq<Frame>, j: nat)
    requires SingleRun(c, ss, fs) && j < |fs| && Locked(ss[j].phase) && MissAt(ss, fs, j) && TimelyAt(ss, fs, j)
    ensures ss[j + 1].target == Coasted(ss[j].target, fs[j].t)
  {
    assert SingleStep(c, ss, fs, j);
    FrameCoasts(c, ss[j], fs[j]);
  }

  /** Main result 3: through any number of timely frames that miss it, a target is just
      where one prediction from the last sight to the last frame puts it. */
  lemma {:induction false} MissedTargetCoasts(c: Config, ss: seq<State>, fs: seq<Frame>, i: nat, n: nat)
    requires SingleRun(c, ss, fs) && i + n <= |fs| && n > 0 && Missed(ss, fs, i, n)
    requires forall j :: i <= j < i + n ==> TimelyAt(ss, fs, j)
    requires forall j :: i <= j < i + n ==> Locked(ss[j].phase)
    ensures ss[i + n].target == Coasted(ss[i].target, fs[i + n - 1].t)
  {
    StepCoasts(c, ss, fs, i + n - 1);
    if n > 1 {
      MissedTargetCoasts(c, ss, fs, i, n - 1);
      CoastsOn(ss[i].target, fs[i + n - 2].t, fs[i + n - 1].t);
    }
  }

  /** Where a target is that coasts to time t. */
  function Coasted(g: Tracked, t: real): Tracked { g.(m := Expected(g, t), t := t) }

  lemma CoastsOn(g: Tracked, a: real, b: real)
    ensures Coasted(Coasted(g, a), b) == Coasted(g, b)
  {
    T.PredictTwice(g.m, a - g.t, b - a);
  }

  // ----- A better target elsewhere -----

  /** The other cameras have an armour that is worth a switch: nothing in sight is better
      than the converged target, and the first armour of their first report is. */
  ghost predicate WorthASwitch(s: State, f: OmniFrame) {
    && s.phase == Tracking && f.t - s.last <= 0.1 && T.Convergence(s.target.m)
    && (forall a :: a in f.armours ==> s.target.priority <= a.priority)
    && f.queue != [] && f.queue[0].armours != [] && f.queue[0].armours[0].priority < s.target.priority
  }

  /** Main result 4: a frame of the second overload hands out that report, with the time of
      the frame, and goes to "switching" for its priority, exactly when it is worth it. */
  lemma SwitchIsHandedOutIff(s: State, f: OmniFrame)
    ensures SwitchTarget(s, f) ==
      if WorthASwitch(s, f) then Detection(f.queue[0].armours, f.t, f.queue[0].deltaYaw, f.queue[0].deltaPitch)
      else Detection([], f.t, 0.0, 0.0)
    ensures WorthASwitch(s, f) ==>
      var r := OmniDispatched(s, f).0; r.phase == Switching && r.omniPriority == f.queue[0].armours[0].priority
  {
    var armours := Arranged(f.armours);
    ArrangedPrefers(f.armours);
    if Better(armours, s.target) {
      assert armours[0] in armours;
      assert armours[0] in f.armours;
    }
  }

  // ----- A gap in time -----

  /** After more than a tenth of a second without a frame, both overloads begin again. */
  lemma GapBeginsAgain(c: Config, s: State, f: Frame, o: OmniFrame)
    requires f.t - s.last > 0.1 && o.t - s.last > 0.1
    ensures var r := Single(c, s, f); r.phase == Lost || (r.phase == Detecting && r.detectCount == 1)
    ensures var r := Omni(c, s, o); r.phase == Lost || (r.phase == Detecting && r.detectCount == 1)
  {
  }
}
