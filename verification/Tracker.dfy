/** The tracker of tasks/auto_aim/tracker.cpp: the five-state machine, the choice
    of a target, and both track overloads, frame by frame and over whole runs.
    What the pose solver and the filter make of an armour is an arbitrary input
    carried by the armour itself; prediction is that of module Target. */
module Tracker {
  import opened Matrix
  import opened Armor
  import opened Ekf
  import opened Basics
  import T = Target

  // ----- Data -----

  type StateVector = v: Vec | |v| == T.DIM witness seq(11, i => 0.0)

  /** One detected armour: how far from the image centre, where the pose solver puts it
      and which way it faces, with the cosine and sine of that yaw, and what the filter of
      the current target makes of it. */
  datatype Armour = Armour(
    color: Color, name: ArmorName, armorType: ArmorType, priority: Priority, distance: real,
    x: real, y: real, z: real, yaw: real, cosYaw: real, sinYaw: real, filtered: StateVector, nisFailed: bool)

  datatype RawTarget = RawTarget(m: T.Mean, armorType: ArmorType, priority: Priority, armorNum: nat, t: real, window: seq<int>)

  /** The target, of which the filter keeps at most a hundred test results. */
  type Tracked = r: RawTarget | |r.m.x| == T.DIM && |r.window| <= WINDOW
    witness RawTarget(T.Mean(NotArmor, 0, false, seq(11, i => 0.0)), Big, 5, 0, 0.0, [0])

  datatype Phase = Lost | Detecting | Tracking | TempLost | Switching

  datatype Config = Config(minDetect: int, maxTempLost: int, outpostMaxTempLost: int)

  datatype State = State(
    phase: Phase, pre: Phase, detectCount: int, tempLostCount: int, maxTempLostCount: int,
    target: Tracked, last: real, omniPriority: Priority)

  datatype Detection = Detection(armours: seq<Armour>, t: real, deltaYaw: real, deltaPitch: real)

  // ----- The order of the armours -----

  function Insert(a: Armour, s: seq<Armour>, key: Armour -> real): seq<Armour> {
    if s == [] || key(a) <= key(s[0]) then [a] + s else [s[0]] + Insert(a, s[1..], key)
  }

  /** A stable sort, as that of std::list. */
  function StableSort(s: seq<Armour>, key: Armour -> real): seq<Armour> {
    if s == [] then [] else Insert(s[0], StableSort(s[1..], key), key)
  }

  function Distance(a: Armour): real { a.distance }
  function PriorityOf(a: Armour): real { a.priority as real }

  function Arranged(s: seq<Armour>): seq<Armour> { StableSort(StableSort(s, Distance), PriorityOf) }

  ghost predicate SortedBy(s: seq<Armour>, key: Armour -> real) {
    forall i, j :: 0 <= i < j < |s| ==> key(s[i]) <= key(s[j])
  }

  lemma {:induction false} InsertKeeps(a: Armour, s: seq<Armour>, key: Armour -> real)
    ensures multiset(Insert(a, s, key)) == multiset{a} + multiset(s)
    ensures forall e :: e in Insert(a, s, key) <==> e == a || e in s
  {
    if s != [] && key(a) > key(s[0]) {
      InsertKeeps(a, s[1..], key);
      assert s == [s[0]] + s[1..];
    }
  }

  lemma {:induction false} InsertSorts(a: Armour, s: seq<Armour>, key: Armour -> real)
    requires SortedBy(s, key)
    ensures SortedBy(Insert(a, s, key), key)
  {
    if s != [] && key(a) > key(s[0]) {
      InsertSorts(a, s[1..], key);
      InsertKeeps(a, s[1..], key);
      var r := Insert(a, s[1..], key);
      forall j | 0 <= j < |r| ensures key(s[0]) <= key(r[j]) {
        assert r[j] in r;
        assert r[j] == a || r[j] in s[1..];
      }
    }
  }

  lemma {:induction false} SortSorts(s: seq<Armour>, key: Armour -> real)
    ensures multiset(StableSort(s, key)) == multiset(s)
    ensures forall e :: e in StableSort(s, key) <==> e in s
    ensures SortedBy(StableSort(s, key), key)
  {
    if s != [] {
      SortSorts(s[1..], key);
      InsertKeeps(s[0], StableSort(s[1..], key), key);
      InsertSorts(s[0], StableSort(s[1..], key), key);
      assert s == [s[0]] + s[1..];
    }
  }

  /** Better priority first; among equals, nearer to the image centre first. */
  ghost predicate Preferred(a: Armour, b: Armour) {
    a.priority < b.priority || (a.priority == b.priority && a.distance <= b.distance)
  }

  ghost predicate InPreference(s: seq<Armour>) {
    forall i, j :: 0 <= i < j < |s| ==> Preferred(s[i], s[j])
  }

  lemma {:induction false} InsertPrefers(a: Armour, s: seq<Armour>)
    requires InPreference(s) && forall e :: e in s ==> a.distance <= e.distance
    ensures InPreference(Insert(a, s, PriorityOf))
  {
    if s != [] && PriorityOf(a) > PriorityOf(s[0]) {
      InsertPrefers(a, s[1..]);
      InsertKeeps(a, s[1..], PriorityOf);
      var r := Insert(a, s[1..], PriorityOf);
      forall j | 0 <= j < |r| ensures Preferred(s[0], r[j]) {
        assert r[j] in r;
        assert r[j] == a || r[j] in s[1..];
      }
    }
  }

  lemma {:induction false} SecondSortPrefers(s: seq<Armour>)
    requires SortedBy(s, Distance)
    ensures InPreference(StableSort(s, PriorityOf))
  {
    if s != [] {
      SecondSortPrefers(s[1..]);
      SortSorts(s[1..], PriorityOf);
      forall e | e in s[1..] ensures s[0].distance <= e.distance {
        assert Distance(s[0]) <= Distance(e);
      }
      InsertPrefers(s[0], StableSort(s[1..], PriorityOf));
    }
  }

  /** Both sorts together: the same armours, by priority and then by distance. */
  lemma ArrangedPrefers(s: seq<Armour>)
    ensures multiset(Arranged(s)) == multiset(s) && InPreference(Arranged(s))
    ensures forall e :: e in Arranged(s) <==> e in s
    ensures forall e :: e in s ==> Arranged(s) != [] && Arranged(s)[0].priority <= e.priority
  {
    SortSorts(s, Distance);
    SortSorts(StableSort(s, Distance), PriorityOf);
    SecondSortPrefers(StableSort(s, Distance));
    var r := Arranged(s);
    forall e | e in s ensures r != [] && r[0].priority <= e.priority {
      assert e in r;
      var i :| 0 <= i < |r| && r[i] == e;
      if i > 0 { assert Preferred(r[0], r[i]); }
    }
  }

  // ----- The target -----

  function Radius(a: Armour): real {
    if Balance(a) then 0.2 else if a.name == Outpost then 0.2765 else if a.name == Base then 0.3205 else 0.2
  }

  predicate Balance(a: Armour) { a.armorType == Big && a.name in {Three, Four, Five} }

  function ArmorNum(a: Armour): nat {
    if Balance(a) then 2 else if a.name == Outpost || a.name == Base then 3 else 4
  }

  /** The variances a new target starts with. */
  function StartVariances(a: Armour): (r: Vec)
    ensures |r| == T.DIM
  {
    if Balance(a) then [1.0, 64.0, 1.0, 64.0, 1.0, 64.0, 0.4, 100.0, 1.0, 1.0, 1.0]
    else if a.name == Outpost then [1.0, 64.0, 1.0, 64.0, 1.0, 81.0, 0.4, 100.0, 0.0001, 0.0, 0.0]
    else if a.name == Base then [1.0, 64.0, 1.0, 64.0, 1.0, 64.0, 0.4, 100.0, 0.0001, 0.0, 0.0]
    else [1.0, 64.0, 1.0, 64.0, 1.0, 64.0, 0.4, 100.0, 1.0, 1.0, 1.0]
  }

  /** A target built on an armour: it has not diverged, and its window is clean. */
  function NewTarget(a: Armour, t: real): (r: Tracked)
    ensures !T.Diverged(r.m.x) && Sum(r.window) == 0
    ensures r.m.name == a.name && r.armorType == a.armorType && r.priority == a.priority
  {
    var r := Radius(a);
    RawTarget(
      T.Mean(a.name, 0, false,
             [a.x + Times(r, a.cosYaw), 0.0, a.y + Times(r, a.sinYaw), 0.0, a.z, 0.0, a.yaw, 0.0, r, 0.0, 0.0]),
      a.armorType, a.priority, ArmorNum(a), t, [0])
  }

  predicate Matches(a: Armour, g: Tracked) { a.name == g.m.name && a.armorType == g.armorType }

  predicate Seen(s: seq<Armour>, g: Tracked) { exists i :: 0 <= i < |s| && Matches(s[i], g) }

  function Absorb(g: Tracked, a: Armour): (r: Tracked)
    ensures Same(g, r)
  {
    g.(m := g.m.(updateCount := g.m.updateCount + 1, x := a.filtered), window := Slide(g.window, a.nisFailed))
  }

  /** Nothing but the estimate has changed. */
  predicate Same(g: Tracked, r: Tracked) {
    r.m.name == g.m.name && r.armorType == g.armorType && r.priority == g.priority
  }

  /** Every matching armour is absorbed, in order. */
  function AbsorbAll(g: Tracked, s: seq<Armour>): (r: Tracked)
    ensures Same(g, r)
    decreases |s|
  {
    if s == [] then g
    else
      var n := |s| - 1;
      var r := AbsorbAll(g, s[..n]);
      if Matches(s[n], r) then Absorb(r, s[n]) else r
  }

  function PredictedTo(g: Tracked, t: real): (r: Tracked)
    ensures Same(g, r)
  {
    g.(m := T.PredictMean(g.m, t - g.t), t := t)
  }

  // ----- One frame -----

  function AfterTimeout(s: State, t: real): Phase {
    if s.phase != Lost && t - s.last > 0.1 then Lost else s.phase
  }

  function Limit(c: Config, name: ArmorName): int {
    if name == Outpost then c.outpostMaxTempLost else c.maxTempLost
  }

  function StateMachine(c: Config, s: State, found: bool): (r: State)
    ensures r.target == s.target && r.last == s.last && r.pre == s.pre && r.omniPriority == s.omniPriority
  {
    match s.phase
    case Lost => if found then s.(phase := Detecting, detectCount := 1) else s
    case Detecting =>
      if found then
        s.(detectCount := s.detectCount + 1, phase := if s.detectCount + 1 >= c.minDetect then Tracking else Detecting)
      else s.(detectCount := 0, phase := Lost)
    case Tracking => if found then s else s.(tempLostCount := 1, phase := TempLost)
    case Switching =>
      if found then s.(phase := Detecting)
      else s.(tempLostCount := s.tempLostCount + 1, phase := if s.tempLostCount + 1 > 200 then Lost else Switching)
    case TempLost =>
      if found then s.(phase := Tracking)
      else
        var limit := Limit(c, s.target.m.name);
        s.(tempLostCount := s.tempLostCount + 1, maxTempLostCount := limit,
           phase := if s.tempLostCount + 1 > limit then Lost else TempLost)
  }

  /** set_target: the first armour, if any. */
  function SetTarget(s: State, armours: seq<Armour>, t: real): State {
    if armours == [] then s else s.(target := NewTarget(armours[0], t))
  }

  /** update_target: predict, then absorb. */
  function UpdateTarget(s: State, armours: seq<Armour>, t: real): State {
    s.(target := AbsorbAll(PredictedTo(s.target, t), armours))
  }

  /** What one call sees; enemy is the colour to keep, if colours are to be used. */
  datatype Frame = Frame(t: real, armours: seq<Armour>, enemy: Option<Color>)

  function Enemies(f: Frame): seq<Armour> {
    if f.enemy.Some? then Filtered(f.armours, f.enemy.value) else f.armours
  }

  function Filtered(s: seq<Armour>, enemy: Color): (r: seq<Armour>)
    ensures forall a :: a in r <==> a in s && a.color == enemy
  {
    if s == [] then []
    else
      assert s == s[..|s| - 1] + [s[|s| - 1]];
      Filtered(s[..|s| - 1], enemy) + if s[|s| - 1].color == enemy then [s[|s| - 1]] else []
  }

  /** Whether a frame shows the target, or one to start with. */
  predicate Found(s: State, f: Frame) {
    var armours := Arranged(Enemies(f));
    if AfterTimeout(s, f.t) == Lost then armours != [] else Seen(armours, s.target)
  }

  predicate BadConvergence(g: Tracked) { Sum(g.window) >= 40 }

  function Dispatched(s: State, f: Frame): State {
    var s1 := s.(phase := AfterTimeout(s, f.t), last := f.t);
    var armours := Arranged(Enemies(f));
    if s1.phase == Lost then SetTarget(s1, armours, f.t) else UpdateTarget(s1, armours, f.t)
  }

  /** The first overload of track. */
  function Single(c: Config, s: State, f: Frame): State {
    var s2 := StateMachine(c, Dispatched(s, f), Found(s, f));
    if (s2.phase != Lost && T.Diverged(s2.target.m.x)) || BadConvergence(s2.target) then s2.(phase := Lost) else s2
  }

  /** The tracker has a target and holds on to it. */
  predicate Locked(p: Phase) { p == Tracking || p == TempLost }

  // ----- Single-camera runs -----

  ghost predicate SingleRun(c: Config, ss: seq<State>, fs: seq<Frame>) {
    && |ss| == |fs| + 1 && ss[0].phase == Lost
    && forall i :: 0 <= i < |fs| ==> SingleStep(c, ss, fs, i)
  }

  ghost predicate SingleStep(c: Config, ss: seq<State>, fs: seq<Frame>, i: int)
    requires |ss| == |fs| + 1 && 0 <= i < |fs|
  {
    ss[i + 1] == Single(c, ss[i], fs[i])
  }

  /** The last n frames before state k all found something; the first of them was
      dispatched as lost, and the states in between are all detecting. */
  ghost predicate FoundLast(ss: seq<State>, fs: seq<Frame>, k: nat, n: int)
    requires |ss| == |fs| + 1 && k < |ss|
  {
    && 1 <= n <= k
    && (forall j :: k - n <= j < k ==> Found(ss[j], fs[j]))
    && (forall j :: k - n < j < k ==> ss[j].phase == Detecting)
    && AfterTimeout(ss[k - n], fs[k - n].t) == Lost
  }

  /** The single-camera tracker never switches. */
  lemma {:induction false} NeverSwitching(c: Config, ss: seq<State>, fs: seq<Frame>, k: nat)
    requires SingleRun(c, ss, fs) && k < |ss|
    ensures ss[k].phase != Switching
  {
    if k > 0 {
      NeverSwitching(c, ss, fs, k - 1);
      assert SingleStep(c, ss, fs, k - 1);
    }
  }

  /** One step of a run into "detecting". */
  lemma IntoDetecting(c: Config, ss: seq<State>, fs: seq<Frame>, j: nat)
    requires SingleRun(c, ss, fs) && j < |fs| && ss[j + 1].phase == Detecting
    ensures Found(ss[j], fs[j])
    ensures if AfterTimeout(ss[j], fs[j].t) == Lost then ss[j + 1].detectCount == 1
            else ss[j].phase == Detecting && ss[j + 1].detectCount == ss[j].detectCount + 1 < c.minDetect
  {
    NeverSwitching(c, ss, fs, j);
    assert SingleStep(c, ss, fs, j);
  }

  lemma IntoTracking(c: Config, ss: seq<State>, fs: seq<Frame>, j: nat)
    requires SingleRun(c, ss, fs) && j < |fs| && ss[j + 1].phase == Tracking && !Locked(ss[j].phase)
    ensures ss[j].phase == Detecting && Found(ss[j], fs[j])
    ensures ss[j].detectCount + 1 >= c.minDetect
  {
    NeverSwitching(c, ss, fs, j);
    assert SingleStep(c, ss, fs, j);
  }

  lemma FoundOnceMore(ss: seq<State>, fs: seq<Frame>, k: nat, n: int)
    requires |ss| == |fs| + 1 && k < |fs| && FoundLast(ss, fs, k, n)
    requires Found(ss[k], fs[k]) && ss[k].phase == Detecting
    ensures FoundLast(ss, fs, k + 1, n + 1)
  {
  }

  lemma {:induction false} DetectionCounts(c: Config, ss: seq<State>, fs: seq<Frame>, k: nat)
    requires SingleRun(c, ss, fs) && k < |ss| && ss[k].phase == Detecting
    ensures FoundLast(ss, fs, k, ss[k].detectCount)
    ensures ss[k].detectCount == 1 || ss[k].detectCount < c.minDetect
  {
    IntoDetecting(c, ss, fs, k - 1);
    if AfterTimeout(ss[k - 1], fs[k - 1].t) != Lost {
      DetectionCounts(c, ss, fs, k - 1);
      FoundOnceMore(ss, fs, k - 1, ss[k - 1].detectCount);
    }
  }

  /** Tracking is entered only from a temporary loss, or after exactly
      max(2, min_detect_count) consecutive frames that found something, the first
      of them from "lost". */
  lemma TrackingNeedsDetections(c: Config, ss: seq<State>, fs: seq<Frame>, k: nat)
    requires SingleRun(c, ss, fs) && 1 <= k < |ss|
    requires ss[k].phase == Tracking && !Locked(ss[k - 1].phase)
    ensures FoundLast(ss, fs, k, if c.minDetect > 2 then c.minDetect else 2)
  {
    var n := ss[k - 1].detectCount;
    IntoTracking(c, ss, fs, k - 1);
    DetectionCounts(c, ss, fs, k - 1);
    FoundOnceMore(ss, fs, k - 1, n);
    assert n + 1 == if c.minDetect > 2 then c.minDetect else 2;
  }

  /** The frame itself gives the target up: a gap in time, a diverged estimate or
      too many failed tests. */
  ghost predicate Ejected(s: State, f: Frame) {
    var g := Dispatched(s, f).target;
    (s.phase != Lost && f.t - s.last > 0.1) || T.Diverged(g.m.x) || Sum(g.window) >= 40
  }

  function MissLimit(c: Config, name: ArmorName): int {
    var limit := if name == Outpost then c.outpostMaxTempLost else c.maxTempLost;
    if limit > 1 then limit + 1 else 2
  }

  ghost predicate Missed(ss: seq<State>, fs: seq<Frame>, i: nat, n: nat)
    requires |ss| == |fs| + 1 && i + n <= |fs|
  {
    forall j :: i <= j < i + n ==> MissAt(ss, fs, j)
  }

  ghost predicate MissAt(ss: seq<State>, fs: seq<Frame>, j: int)
    requires |ss| == |fs| + 1 && 0 <= j < |fs|
  {
    !Found(ss[j], fs[j])
  }

  ghost predicate EjectedAt(ss: seq<State>, fs: seq<Frame>, j: int)
    requires |ss| == |fs| + 1 && 0 <= j < |fs|
  {
    Ejected(ss[j], fs[j])
  }

  /** The counter after a miss. */
  function MissCount(s: State): int { if s.phase == Tracking then 1 else s.tempLostCount + 1 }

  predicate WithinLimit(c: Config, s: State) { s.phase == TempLost ==> MissCount(s) <= Limit(c, s.target.m.name) }

  /** A miss loses the target, or is counted. */
  lemma MissedFrame(c: Config, s: State, f: Frame)
    requires Locked(s.phase) && !Found(s, f)
    ensures var r := Single(c, s, f);
      && (r.phase == Lost
          || (r.phase == TempLost && r.tempLostCount == MissCount(s) && Same(s.target, r.target) && WithinLimit(c, s)))
      && (!Ejected(s, f) && WithinLimit(c, s) ==> r.phase == TempLost)
  {
  }

  lemma MissedStep(c: Config, ss: seq<State>, fs: seq<Frame>, j: nat)
    requires SingleRun(c, ss, fs) && j < |fs| && Locked(ss[j].phase) && MissAt(ss, fs, j)
    ensures var s, r := ss[j], ss[j + 1];
      && (r.phase == Lost
          || (r.phase == TempLost && r.tempLostCount == MissCount(s) && Same(s.target, r.target) && WithinLimit(c, s)))
      && (!EjectedAt(ss, fs, j) && WithinLimit(c, s) ==> r.phase == TempLost)
  {
    assert SingleStep(c, ss, fs, j);
    MissedFrame(c, ss[j], fs[j]);
  }

  /** After n misses from "tracking", and no "lost" in between. */
  lemma {:induction false} MissesCount(c: Config, ss: seq<State>, fs: seq<Frame>, i: nat, n: nat)
    requires SingleRun(c, ss, fs) && i + n <= |fs| && Missed(ss, fs, i, n)
    requires ss[i].phase == Tracking && forall j :: i <= j <= i + n ==> ss[j].phase != Lost
    ensures ss[i + n].target.m.name == ss[i].target.m.name
    ensures n == 0 || (ss[i + n].phase == TempLost && ss[i + n].tempLostCount == n)
    ensures n < MissLimit(c, ss[i].target.m.name)
  {
    if n > 0 {
      MissesCount(c, ss, fs, i, n - 1);
      var j := i + n - 1;
      MissedStep(c, ss, fs, j);
    }
  }

  /** From "tracking", max(2, limit + 1) consecutive misses reach "lost", with the
      limit of outposts or of the rest. */
  lemma MissesLeadToLost(c: Config, ss: seq<State>, fs: seq<Frame>, i: nat)
    requires SingleRun(c, ss, fs) && i < |ss| && ss[i].phase == Tracking
    requires i + MissLimit(c, ss[i].target.m.name) <= |fs|
    requires Missed(ss, fs, i, MissLimit(c, ss[i].target.m.name))
    ensures exists j :: i < j <= i + MissLimit(c, ss[i].target.m.name) && ss[j].phase == Lost
  {
    var n := MissLimit(c, ss[i].target.m.name);
    if forall j :: i <= j <= i + n ==> ss[j].phase != Lost {
      MissesCount(c, ss, fs, i, n);
      assert false;
    }
  }

  /** And no sooner, unless a frame gives the target up by itself. */
  lemma {:induction false} MissesTolerated(c: Config, ss: seq<State>, fs: seq<Frame>, i: nat, n: nat)
    requires SingleRun(c, ss, fs) && i + n <= |fs| && Missed(ss, fs, i, n) && ss[i].phase == Tracking
    requires forall j :: i <= j < i + n ==> !EjectedAt(ss, fs, j)
    requires 0 < n < MissLimit(c, ss[i].target.m.name)
    ensures ss[i + n].phase == TempLost && ss[i + n].tempLostCount == n && Same(ss[i].target, ss[i + n].target)
  {
    var j := i + n - 1;
    if n > 1 {
      MissesTolerated(c, ss, fs, i, n - 1);
    }
    MissedStep(c, ss, fs, j);
  }

  // ----- The omnidirectional overload -----

  datatype OmniFrame = OmniFrame(t: real, armours: seq<Armour>, queue: seq<Detection>)

  predicate Better(s: seq<Armour>, g: Tracked) { s != [] && s[0].priority < g.priority }

  function Front(f: OmniFrame): Detection {
    if f.queue == [] then Detection([], f.t, 0.0, 0.0) else f.queue[0]
  }

  function OmniDispatched(s: State, f: OmniFrame): (State, bool) {
    var s1 := s.(phase := AfterTimeout(s, f.t), last := f.t);
    var armours := Arranged(f.armours);
    if s1.phase == Lost then (SetTarget(s1, armours, f.t), armours != [])
    else if s1.phase == Tracking && Better(armours, s1.target) then (SetTarget(s1, armours, f.t), true)
    else
      var asked := s1.phase == Tracking && Better(Front(f).armours, s1.target);
      var s2 := if asked then s1.(target := Settled(s1.target)) else s1;
      if asked && s2.target.m.isConverged then
        (s2.(phase := Switching, omniPriority := Front(f).armours[0].priority), false)
      else if s1.phase == Switching then (s1, armours != [] && armours[0].priority == s1.omniPriority)
      else if s1.phase == Detecting && s1.pre == Switching then (SetTarget(s1, armours, f.t), armours != [])
      else (UpdateTarget(s2, armours, f.t), Seen(armours, s2.target))
  }

  /** convergened() also records its answer. */
  function Settled(g: Tracked): (r: Tracked)
    ensures Same(g, r) && r.m.isConverged == T.Convergence(g.m)
  {
    g.(m := g.m.(isConverged := T.Convergence(g.m)))
  }

  function Omni(c: Config, s: State, f: OmniFrame): State {
    var (s1, found) := OmniDispatched(s, f);
    var s2 := StateMachine(c, s1.(pre := s1.phase), found);
    if s2.phase != Lost && T.Diverged(s2.target.m.x) then s2.(phase := Lost) else s2
  }

  function SwitchTarget(s: State, f: OmniFrame): Detection {
    if OmniDispatched(s, f).0.phase == Switching && AfterTimeout(s, f.t) == Tracking
    then Front(f).(t := f.t) else Detection([], f.t, 0.0, 0.0)
  }

  ghost predicate OmniRun(c: Config, ss: seq<State>, fs: seq<OmniFrame>) {
    && |ss| == |fs| + 1 && ss[0].phase == Lost && ss[0].tempLostCount >= 0
    && forall i :: 0 <= i < |fs| ==> OmniStep(c, ss, fs, i)
  }

  ghost predicate OmniStep(c: Config, ss: seq<State>, fs: seq<OmniFrame>, i: int)
    requires |ss| == |fs| + 1 && 0 <= i < |fs|
  {
    ss[i + 1] == Omni(c, ss[i], fs[i])
  }

  /** The dispatch of a frame, however it ends, trades the target only for a better one. */
  lemma DispatchKeepsPriority(s: State, f: OmniFrame)
    requires Locked(AfterTimeout(s, f.t))
    ensures OmniDispatched(s, f).0.target.priority <= s.target.priority
  {
  }

  lemma FrameKeepsPriority(c: Config, s: State, f: OmniFrame)
    requires Locked(s.phase) && Locked(Omni(c, s, f).phase)
    ensures Omni(c, s, f).target.priority <= s.target.priority
  {
    if Locked(AfterTimeout(s, f.t)) {
      DispatchKeepsPriority(s, f);
    }
  }

  lemma StepKeepsPriority(c: Config, ss: seq<State>, fs: seq<OmniFrame>, j: nat)
    requires OmniRun(c, ss, fs) && j < |fs| && Locked(ss[j].phase) && Locked(ss[j + 1].phase)
    ensures ss[j + 1].target.priority <= ss[j].target.priority
  {
    assert OmniStep(c, ss, fs, j);
    FrameKeepsPriority(c, ss[j], fs[j]);
  }

  /** While the tracker holds on to its target, it only ever trades it for a
      better one. */
  lemma {:induction false} PriorityNeverWorsens(c: Config, ss: seq<State>, fs: seq<OmniFrame>, i: nat, k: nat)
    requires OmniRun(c, ss, fs) && i <= k < |ss| && forall j :: i <= j <= k ==> Locked(ss[j].phase)
    ensures ss[k].target.priority <= ss[i].target.priority
  {
    if i < k {
      PriorityNeverWorsens(c, ss, fs, i, k - 1);
      StepKeepsPriority(c, ss, fs, k - 1);
    }
  }

  /** A frame that began in "tracking" and did not end in "lost" leaves no armour
      of the main camera with a better priority than the target. */
  lemma NothingBetterInSight(c: Config, s: State, f: OmniFrame, a: Armour)
    requires AfterTimeout(s, f.t) == Tracking && Omni(c, s, f).phase != Lost && a in f.armours
    ensures Omni(c, s, f).target.priority <= a.priority
  {
    ArrangedPrefers(f.armours);
  }

  predicate CountOk(s: State) { s.tempLostCount >= 0 && (s.phase == Switching ==> 1 <= s.tempLostCount <= 200) }

  lemma FrameCounts(c: Config, s: State, f: OmniFrame)
    requires CountOk(s)
    ensures CountOk(Omni(c, s, f))
    ensures s.phase == Switching && Omni(c, s, f).phase == Switching ==>
            Omni(c, s, f).tempLostCount == s.tempLostCount + 1
  {
  }

  /** The miss counter of a run. */
  lemma {:induction false} CountsStayNatural(c: Config, ss: seq<State>, fs: seq<OmniFrame>, k: nat)
    requires OmniRun(c, ss, fs) && k < |ss|
    ensures CountOk(ss[k])
  {
    if k > 0 {
      CountsStayNatural(c, ss, fs, k - 1);
      assert OmniStep(c, ss, fs, k - 1);
      FrameCounts(c, ss[k - 1], fs[k - 1]);
    }
  }

  lemma {:induction false} SwitchingCounts(c: Config, ss: seq<State>, fs: seq<OmniFrame>, i: nat, k: nat)
    requires OmniRun(c, ss, fs) && i <= k < |ss| && forall j :: i <= j <= k ==> ss[j].phase == Switching
    ensures ss[k].tempLostCount == ss[i].tempLostCount + (k - i)
  {
    if i < k {
      SwitchingCounts(c, ss, fs, i, k - 1);
      CountsStayNatural(c, ss, fs, k - 1);
      assert OmniStep(c, ss, fs, k - 1);
      FrameCounts(c, ss[k - 1], fs[k - 1]);
    }
  }

  /** "switching" survives at most 200 frames without a match. */
  lemma SwitchingIsBounded(c: Config, ss: seq<State>, fs: seq<OmniFrame>, i: nat, k: nat)
    requires OmniRun(c, ss, fs) && i <= k < |ss| && forall j :: i <= j <= k ==> ss[j].phase == Switching
    ensures k - i + 1 <= 200
  {
    CountsStayNatural(c, ss, fs, i);
    CountsStayNatural(c, ss, fs, k);
    SwitchingCounts(c, ss, fs, i, k);
  }

  /** A frame that does not show the priority that the switch is for. */
  predicate Unmatched(f: OmniFrame, p: Priority) {
    var armours := Arranged(f.armours);
    armours == [] || armours[0].priority != p
  }

  /** Frames j of a run that come in time and do not end a switch to priority p. */
  ghost predicate Quiet(ss: seq<State>, fs: seq<OmniFrame>, i: nat, n: nat, p: Priority)
    requires |ss| == |fs| + 1 && i + n <= |fs|
  {
    forall j :: i <= j < i + n ==> Unmatched(fs[j], p) && fs[j].t - ss[j].last <= 0.1
  }

  lemma QuietFrame(c: Config, s: State, f: OmniFrame)
    requires s.phase == Switching && f.t - s.last <= 0.1 && Unmatched(f, s.omniPriority) && !T.Diverged(s.target.m.x)
    requires s.tempLostCount + 1 <= 200
    ensures var r := Omni(c, s, f);
      && r.phase == Switching && r.tempLostCount == s.tempLostCount + 1
      && r.omniPriority == s.omniPriority && r.target == s.target && r.last == f.t
  {
  }

  lemma NeverDiverged(c: Config, ss: seq<State>, fs: seq<OmniFrame>, k: nat)
    requires OmniRun(c, ss, fs) && k < |ss| && ss[k].phase != Lost
    ensures !T.Diverged(ss[k].target.m.x)
  {
    assert k > 0 && OmniStep(c, ss, fs, k - 1);
  }

  lemma QuietStep(c: Config, ss: seq<State>, fs: seq<OmniFrame>, j: nat)
    requires OmniRun(c, ss, fs) && j < |fs| && ss[j].phase == Switching && ss[j].tempLostCount + 1 <= 200
    requires Unmatched(fs[j], ss[j].omniPriority) && fs[j].t - ss[j].last <= 0.1
    ensures var s, r := ss[j], ss[j + 1];
      && r.phase == Switching && r.tempLostCount == s.tempLostCount + 1
      && r.omniPriority == s.omniPriority && r.target == s.target
  {
    NeverDiverged(c, ss, fs, j);
    assert OmniStep(c, ss, fs, j);
    QuietFrame(c, ss[j], fs[j]);
  }

  lemma {:induction false} SwitchingHolds(c: Config, ss: seq<State>, fs: seq<OmniFrame>, i: nat, n: nat)
    requires OmniRun(c, ss, fs) && i + n <= |fs| && ss[i].phase == Switching
    requires Quiet(ss, fs, i, n, ss[i].omniPriority) && ss[i].tempLostCount + n <= 200
    ensures var r := ss[i + n];
      && r.phase == Switching && r.tempLostCount == ss[i].tempLostCount + n
      && r.omniPriority == ss[i].omniPriority && r.target == ss[i].target
  {
    if n > 0 {
      SwitchingHolds(c, ss, fs, i, n - 1);
      QuietStep(c, ss, fs, i + n - 1);
    }
  }

  /** And exactly so long: n timely frames without a match leave the tracker in
      "switching" if and only if its counter, which earlier losses may already have
      raised, does not pass 200. */
  lemma SwitchingLastsIff(c: Config, ss: seq<State>, fs: seq<OmniFrame>, i: nat, n: nat)
    requires OmniRun(c, ss, fs) && i + n <= |fs| && ss[i].phase == Switching
    requires Quiet(ss, fs, i, n, ss[i].omniPriority)
    ensures (forall j :: i <= j <= i + n ==> ss[j].phase == Switching) <==> ss[i].tempLostCount + n <= 200
  {
    if forall j :: i <= j <= i + n ==> ss[j].phase == Switching {
      SwitchingCounts(c, ss, fs, i, i + n);
      CountsStayNatural(c, ss, fs, i + n);
    }
    if ss[i].tempLostCount + n <= 200 {
      forall j | i <= j <= i + n ensures ss[j].phase == Switching { SwitchingHolds(c, ss, fs, i, j - i); }
    }
  }

  // ----- The object -----

  class Tracker {
    const config: Config
    var enemyColor: Color
    var state: Phase
    var preState: Phase
    var detectCount: int
    var tempLostCount: int
    var maxTempLostCount: int
    var target: Tracked
    var lastTimestamp: real
    var omniTargetPriority: Priority

    ghost function View(): State
      reads this
    {
      State(state, preState, detectCount, tempLostCount, maxTempLostCount, target, lastTimestamp, omniTargetPriority)
    }

    /** A tracker starts lost, so that the placeholder target is never looked at. */
    constructor (c: Config, enemy: Color, now: real, placeholder: Tracked)
      ensures config == c && enemyColor == enemy
      ensures View() == State(Lost, Lost, 0, 0, c.maxTempLost, placeholder, now, 5)
    {
      config, enemyColor, state, preState, detectCount, tempLostCount := c, enemy, Lost, Lost, 0, 0;
      maxTempLostCount, target, lastTimestamp, omniTargetPriority := c.maxTempLost, placeholder, now, 5;
    }

    method RunStateMachine(found: bool)
      modifies this`state, this`detectCount, this`tempLostCount, this`maxTempLostCount
      ensures View() == StateMachine(config, old(View()), found)
    {
      if state == Lost {
        if !found { return; }
        state := Detecting;
        detectCount := 1;
      } else if state == Detecting {
        if found {
          detectCount := detectCount + 1;
          if detectCount >= config.minDetect { state := Tracking; }
        } else {
          detectCount := 0;
          state := Lost;
        }
      } else if state == Tracking {
        if found { return; }
        tempLostCount := 1;
        state := TempLost;
      } else if state == Switching {
        if found {
          state := Detecting;
        } else {
          tempLostCount := tempLostCount + 1;
          if tempLostCount > 200 { state := Lost; }
        }
      } else {
        if found {
          state := Tracking;
        } else {
          tempLostCount := tempLostCount + 1;
          maxTempLostCount := if target.m.name == Outpost then config.outpostMaxTempLost else config.maxTempLost;
          if tempLostCount > maxTempLostCount { state := Lost; }
        }
      }
    }

    method StartTarget(armours: seq<Armour>, t: real) returns (found: bool)
      modifies this`target
      ensures View() == SetTarget(old(View()), armours, t) && found == (armours != [])
    {
      if armours == [] { return false; }
      target := NewTarget(armours[0], t);
      return true;
    }

    method ContinueTarget(armours: seq<Armour>, t: real) returns (found: bool)
      modifies this`target
      ensures View() == UpdateTarget(old(View()), armours, t) && found == Seen(armours, old(target))
    {
      target := PredictedTo(target, t);
      ghost var predicted := target;
      SeenSame(armours, old(target), predicted);
      var count := CountMatching(armours, target);
      if count == 0 {
        UnseenAbsorbsNothing(predicted, armours);
        return false;
      }
      for i := 0 to |armours|
        invariant target == AbsorbAll(predicted, armours[..i])
      {
        assert armours[..i + 1][..i] == armours[..i];
        if Matches(armours[i], target) {
          target := Absorb(target, armours[i]);
        }
      }
      assert armours[..|armours|] == armours;
      return true;
    }

    method Track(f: Frame) returns (targets: seq<Tracked>)
      requires f.enemy.Some? ==> f.enemy.value == enemyColor
      modifies this
      ensures View() == Single(config, old(View()), f) && enemyColor == old(enemyColor)
      ensures targets == if state == Lost then [] else [target]
      ensures forall g :: g in targets ==> !T.Diverged(g.m.x) && Sum(g.window) < 40
    {
      var dt := f.t - lastTimestamp;
      lastTimestamp := f.t;
      if state != Lost && dt > 0.1 {
        state := Lost;
      }
      var armours := Arranged(Enemies(f));
      var found;
      if state == Lost {
        found := StartTarget(armours, f.t);
      } else {
        found := ContinueTarget(armours, f.t);
      }
      RunStateMachine(found);
      if state != Lost && T.Diverged(target.m.x) {
        state := Lost;
        return [];
      }
      var failures := Accumulate(target.window);
      if failures as real >= 0.4 * (WINDOW as real) {
        state := Lost;
        return [];
      }
      if state == Lost { return []; }
      return [target];
    }

    /** The first half of the second overload: which branch the frame takes. */
    method DispatchOmni(f: OmniFrame) returns (switchTarget: Detection, found: bool)
      modifies this`state, this`target, this`lastTimestamp, this`omniTargetPriority
      ensures (View(), found) == OmniDispatched(old(View()), f)
      ensures switchTarget == SwitchTarget(old(View()), f)
    {
      switchTarget := Detection([], f.t, 0.0, 0.0);
      var front := Detection([], f.t, 0.0, 0.0);
      if f.queue != [] { front := f.queue[0]; }
      var dt := f.t - lastTimestamp;
      lastTimestamp := f.t;
      if state != Lost && dt > 0.1 {
        state := Lost;
      }
      var armours := Arranged(f.armours);
      var converged := false;
      if state == Tracking && !Better(armours, target) && Better(front.armours, target) {
        target := Settled(target);
        converged := target.m.isConverged;
      }
      if state == Lost {
        found := StartTarget(armours, f.t);
      } else if state == Tracking && Better(armours, target) {
        found := StartTarget(armours, f.t);
      } else if converged {
        state := Switching;
        switchTarget := front.(t := f.t);
        omniTargetPriority := front.armours[0].priority;
        found := false;
      } else if state == Switching {
        found := armours != [] && armours[0].priority == omniTargetPriority;
      } else if state == Detecting && preState == Switching {
        found := StartTarget(armours, f.t);
      } else {
        found := ContinueTarget(armours, f.t);
      }
    }

    method TrackOmni(f: OmniFrame) returns (switchTarget: Detection, targets: seq<Tracked>)
      modifies this
      ensures View() == Omni(config, old(View()), f) && enemyColor == old(enemyColor)
      ensures switchTarget == SwitchTarget(old(View()), f)
      ensures targets == if state == Lost then [] else [target]
      ensures forall g :: g in targets ==> !T.Diverged(g.m.x)
    {
      var found;
      switchTarget, found := DispatchOmni(f);
      preState := state;
      RunStateMachine(found);
      if state != Lost && T.Diverged(target.m.x) {
        state := Lost;
        return switchTarget, [];
      }
      if state == Lost { return switchTarget, []; }
      return switchTarget, [target];
    }
  }

  method CountMatching(armours: seq<Armour>, g: Tracked) returns (count: nat)
    ensures count > 0 <==> Seen(armours, g)
  {
    count := 0;
    for i := 0 to |armours|
      invariant count > 0 <==> Seen(armours[..i], g)
    {
      if Matches(armours[i], g) { count := count + 1; }
      SeenNext(armours, g, i);
    }
    assert armours[..|armours|] == armours;
  }

  lemma SeenSame(s: seq<Armour>, g: Tracked, r: Tracked)
    requires Same(g, r)
    ensures Seen(s, g) <==> Seen(s, r)
  {
    assert forall a :: Matches(a, g) <==> Matches(a, r);
  }

  lemma SeenNext(s: seq<Armour>, g: Tracked, i: nat)
    requires i < |s|
    ensures Seen(s[..i + 1], g) <==> Seen(s[..i], g) || Matches(s[i], g)
  {
    var before, upto := s[..i], s[..i + 1];
    assert upto == before + [s[i]];
    if Seen(before, g) {
      var k :| 0 <= k < |before| && Matches(before[k], g);
      assert Matches(upto[k], g);
    }
    if Seen(upto, g) {
      var k :| 0 <= k < |upto| && Matches(upto[k], g);
      assert k < i ==> Matches(before[k], g);
    }
    assert upto[i] == s[i];
  }

  lemma {:induction false} UnseenAbsorbsNothing(g: Tracked, s: seq<Armour>)
    requires !Seen(s, g)
    ensures AbsorbAll(g, s) == g
    decreases |s|
  {
    if s != [] {
      SeenNext(s, g, |s| - 1);
      assert s[..|s| - 1 + 1] == s;
      UnseenAbsorbsNothing(g, s[..|s| - 1]);
    }
  }
}
