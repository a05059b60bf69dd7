/** Runs of the omnidirectional tracker of tasks/auto_aim/tracker.cpp that show what
    its counter of lost frames, which nothing resets on the way into "switching", can
    do to that state. */
module TrackerRuns {
  import opened Armor
  import opened Tracker
  import T = Target

  /** A small plate of priority p whose estimate is sound. */
  function Plate(p: Priority): Armour {
    Armour(Red, Four, Small, p, 0.0, 0.0, 0.0, 0.0, 0.0, 1.0, 0.0,
           [0.0, 0.0, 0.0, 0.0, 0.0, 0.0, 0.0, 0.0, 0.2, 0.0, 0.0], false)
  }

  function Shows(p: Priority): OmniFrame { OmniFrame(0.0, [Plate(p)], []) }
  function Asks(p: Priority): OmniFrame { OmniFrame(0.0, [], [Detection([Plate(p)], 0.0, 0.0, 0.0)]) }
  const NOTHING: OmniFrame := OmniFrame(0.0, [], [])

  /** A tracker as its constructor leaves it. */
  predicate Fresh(s: State) {
    s.phase == Lost && s.pre == Lost && s.tempLostCount == 0 && s.last == 0.0
  }

  /** The target is a plate of priority p, with a sound estimate. */
  predicate On(s: State, p: Priority) {
    && s.last == 0.0 && !T.Diverged(s.target.m.x)
    && s.target.m.name == Four && s.target.armorType == Small && s.target.priority == p
  }

  predicate Following(s: State, p: Priority) {
    On(s, p) && (s.phase == Tracking || (s.phase == Detecting && s.pre != Switching))
  }

  predicate Ready(s: State, p: Priority) { On(s, p) && s.phase == Tracking && s.target.m.updateCount > 3 }

  lemma ArrangedOne(p: Priority)
    ensures Arranged([Plate(p)]) == [Plate(p)] && Arranged([]) == []
  {
    var one := [Plate(p)];
    assert one[1..] == [] && StableSort(one[1..], Distance) == [] && StableSort(one[1..], PriorityOf) == [];
    assert StableSort(one, Distance) == one && StableSort(one, PriorityOf) == one;
  }

  lemma AbsorbOne(g: Tracked, a: Armour)
    ensures AbsorbAll(g, [a]) == if Matches(a, g) then Absorb(g, a) else g
  {
    assert [a][..0] == [];
  }

  // ----- Single frames -----

  lemma FirstSight(c: Config, s: State, p: Priority)
    requires Fresh(s)
    ensures var r := Omni(c, s, Shows(p)); Following(r, p) && r.tempLostCount == s.tempLostCount
  {
    ArrangedOne(p);
  }

  lemma SeenAgain(c: Config, s: State, p: Priority)
    requires Following(s, p)
    ensures var r := Omni(c, s, Shows(p));
      && Following(r, p) && r.tempLostCount == s.tempLostCount
      && r.target.m.updateCount == s.target.m.updateCount + 1
      && (s.phase == Tracking ==> r.phase == Tracking)
      && (s.phase == Detecting ==> r.detectCount == s.detectCount + 1)
      && (s.phase == Detecting && s.detectCount + 1 >= c.minDetect ==> r.phase == Tracking)
  {
    ArrangedOne(p);
    var armours := [Plate(p)];
    assert Matches(armours[0], s.target);
    AbsorbOne(PredictedTo(s.target, 0.0), Plate(p));
  }

  lemma AskedToSwitch(c: Config, s: State, p: Priority, q: Priority)
    requires Ready(s, p) && q < p && s.tempLostCount < 200
    ensures var r := Omni(c, s, Asks(q));
      On(r, p) && r.phase == Switching && r.omniPriority == q && r.tempLostCount == s.tempLostCount + 1
  {
    ArrangedOne(p);
  }

  lemma FoundAgain(c: Config, s: State, p: Priority, q: Priority)
    requires On(s, p) && s.phase == Switching && s.omniPriority == q
    ensures var r := Omni(c, s, Shows(q));
      On(r, p) && r.phase == Detecting && r.pre == Switching && r.tempLostCount == s.tempLostCount
  {
    ArrangedOne(q);
  }

  lemma TakenUp(c: Config, s: State, p: Priority, q: Priority)
    requires On(s, p) && s.phase == Detecting && s.pre == Switching
    ensures var r := Omni(c, s, Shows(q)); Following(r, q) && r.tempLostCount == s.tempLostCount
  {
    ArrangedOne(q);
  }

  // ----- Runs -----

  /** A run from a fresh tracker, and its last state. */
  ghost predicate Run(c: Config, ss: seq<State>, fs: seq<OmniFrame>, s: State) {
    OmniRun(c, ss, fs) && Fresh(ss[0]) && s == ss[|fs|]
  }

  lemma Goes(c: Config, ss: seq<State>, fs: seq<OmniFrame>, s: State, f: OmniFrame)
    returns (ss': seq<State>, fs': seq<OmniFrame>, r: State)
    requires Run(c, ss, fs, s)
    ensures Run(c, ss', fs', r) && ss' == ss + [r] && fs' == fs + [f] && r == Omni(c, s, f)
  {
    r := Omni(c, s, f);
    ss', fs' := ss + [r], fs + [f];
    forall i | 0 <= i < |fs'| ensures OmniStep(c, ss', fs', i) {
      if i < |fs| { assert OmniStep(c, ss, fs, i); }
    }
  }

  /** How many more sights it takes. */
  function Needed(c: Config, s: State): nat {
    (if s.phase == Detecting then (if c.minDetect > s.detectCount then c.minDetect - s.detectCount else 0) + 1 else 0)
    + (if s.target.m.updateCount > 3 then 0 else 4 - s.target.m.updateCount)
  }

  lemma {:induction false} FollowOn(c: Config, ss: seq<State>, fs: seq<OmniFrame>, s: State, p: Priority)
    returns (ss': seq<State>, fs': seq<OmniFrame>, r: State)
    requires Run(c, ss, fs, s) && Following(s, p)
    ensures Run(c, ss', fs', r) && ss'[0] == ss[0] && Ready(r, p) && r.tempLostCount == s.tempLostCount
    decreases Needed(c, s)
  {
    ss', fs', r := ss, fs, s;
    if !Ready(s, p) {
      SeenAgain(c, s, p);
      ss', fs', r := Goes(c, ss, fs, s, Shows(p));
      ss', fs', r := FollowOn(c, ss', fs', r, p);
    }
  }

  lemma {:induction false} WaitOn(c: Config, ss: seq<State>, fs: seq<OmniFrame>, s: State, p: Priority, n: nat)
    returns (ss': seq<State>, fs': seq<OmniFrame>, r: State)
    requires Run(c, ss, fs, s) && On(s, p) && s.phase == Switching && s.tempLostCount + n <= 200
    ensures Run(c, ss', fs', r) && ss'[0] == ss[0] && On(r, p) && r.phase == Switching && r.omniPriority == s.omniPriority
    ensures r.tempLostCount == s.tempLostCount + n
    decreases n
  {
    ss', fs', r := ss, fs, s;
    if n > 0 {
      ArrangedOne(p);
      QuietFrame(c, s, NOTHING);
      ss', fs', r := Goes(c, ss, fs, s, NOTHING);
      ss', fs', r := WaitOn(c, ss', fs', r, p, n - 1);
    }
  }

  /** A first switch, from a target of priority 3. */
  lemma FirstSwitch(c: Config, s: State) returns (ss: seq<State>, fs: seq<OmniFrame>, r: State)
    requires Fresh(s)
    ensures Run(c, ss, fs, r) && ss[0] == s && On(r, 3) && r.phase == Switching && r.omniPriority == 2
    ensures r.tempLostCount == 1 && fs != [] && ss[|fs| - 1].phase == Tracking
  {
    ss, fs, r := [s], [], s;
    FirstSight(c, r, 3);
    ss, fs, r := Goes(c, ss, fs, r, Shows(3));
    ss, fs, r := FollowOn(c, ss, fs, r, 3);
    AskedToSwitch(c, r, 3, 2);
    ss, fs, r := Goes(c, ss, fs, r, Asks(2));
  }

  /** The switch takes some frames, the target is followed, and a second one begins. */
  lemma SecondSwitch(c: Config, ss: seq<State>, fs: seq<OmniFrame>, s: State, n: nat)
    returns (ss': seq<State>, fs': seq<OmniFrame>, r: State)
    requires Run(c, ss, fs, s) && On(s, 3) && s.phase == Switching && s.omniPriority == 2
    requires s.tempLostCount + n < 200
    ensures Run(c, ss', fs', r) && ss'[0] == ss[0] && r.phase == Switching && r.tempLostCount == s.tempLostCount + n + 1
    ensures fs' != [] && ss'[|fs'| - 1].phase == Tracking
  {
    ss', fs', r := WaitOn(c, ss, fs, s, 3, n);
    FoundAgain(c, r, 3, 2);
    ss', fs', r := Goes(c, ss', fs', r, Shows(2));
    TakenUp(c, r, 3, 2);
    ss', fs', r := Goes(c, ss', fs', r, Shows(2));
    ss', fs', r := FollowOn(c, ss', fs', r, 2);
    AskedToSwitch(c, r, 2, 1);
    ss', fs', r := Goes(c, ss', fs', r, Asks(1));
  }

  /** Whatever the configuration, a fresh tracker can enter "switching" with its
      counter at any number up to 200; by SwitchingLastsIff it then survives just
      200 - m frames without a match, and with m = 200 none at all. */
  lemma SwitchingMayBeEnteredAt(c: Config, s: State, m: int) returns (ss: seq<State>, fs: seq<OmniFrame>)
    requires Fresh(s) && 1 <= m <= 200
    ensures OmniRun(c, ss, fs) && ss[0] == s && fs != []
    ensures ss[|fs| - 1].phase == Tracking && ss[|fs|].phase == Switching && ss[|fs|].tempLostCount == m
  {
    var r;
    ss, fs, r := FirstSwitch(c, s);
    if m > 1 {
      ss, fs, r := SecondSwitch(c, ss, fs, r, m - 2);
    }
  }
}
