/** How the second track overload of tasks/auto_aim/tracker.cpp comes to "tracking": after
    min_detect_count finds from "lost", but after a single one from "switching", because
    detect_count_ is not reset on the way from "switching" to "detecting". */
module TrackerOmni {
  import opened Tracker

  predicate OmniFound(s: State, f: OmniFrame) { OmniDispatched(s, f).1 }

  /** The tracker comes from a switch. */
  predicate AfterSwitch(s: State) { s.phase == Detecting && s.pre == Switching }

  /** What the counter of finds has reached. */
  predicate DetectOk(c: Config, s: State) {
    && (s.phase == Detecting ==> s.detectCount >= 1)
    && (Locked(s.phase) || s.phase == Switching || AfterSwitch(s) ==> s.detectCount >= 2 && s.detectCount >= c.minDetect)
  }

  lemma FrameDetects(c: Config, s: State, f: OmniFrame)
    requires DetectOk(c, s)
    ensures DetectOk(c, Omni(c, s, f))
  {
  }

  lemma FrameAfterSwitch(c: Config, s: State, f: OmniFrame)
    requires DetectOk(c, s) && AfterSwitch(s) && f.t - s.last <= 0.1
    ensures Omni(c, s, f).phase == if Arranged(f.armours) == [] then Lost else Tracking
  {
  }

  lemma FrameIntoDetecting(c: Config, s: State, f: OmniFrame)
    requires DetectOk(c, s)
    ensures var r := Omni(c, s, f); r.phase == Detecting && r.pre != Switching ==>
      && OmniFound(s, f)
      && (if AfterTimeout(s, f.t) == Lost then r.detectCount == 1
          else s.phase == Detecting && s.pre != Switching && r.detectCount == s.detectCount + 1 < c.minDetect)
  {
  }

  lemma FrameIntoTracking(c: Config, s: State, f: OmniFrame)
    requires Omni(c, s, f).phase == Tracking && !Locked(s.phase)
    ensures s.phase == Detecting && OmniFound(s, f) && s.detectCount + 1 >= c.minDetect
  {
  }

  lemma {:induction false} RunDetects(c: Config, ss: seq<State>, fs: seq<OmniFrame>, k: nat)
    requires OmniRun(c, ss, fs) && k < |ss|
    ensures DetectOk(c, ss[k])
  {
    if k > 0 {
      RunDetects(c, ss, fs, k - 1);
      assert OmniStep(c, ss, fs, k - 1);
      FrameDetects(c, ss[k - 1], fs[k - 1]);
    }
  }

  /** Main result 1: whatever min_detect_count is, after a switch one timely frame decides:
      with any armour in it the tracker is "tracking", without one it is "lost". */
  lemma OneFrameAfterSwitch(c: Config, ss: seq<State>, fs: seq<OmniFrame>, k: nat)
    requires OmniRun(c, ss, fs) && k < |fs| && AfterSwitch(ss[k]) && fs[k].t - ss[k].last <= 0.1
    ensures ss[k + 1].phase == if fs[k].armours == [] then Lost else Tracking
  {
    RunDetects(c, ss, fs, k);
    assert OmniStep(c, ss, fs, k);
    FrameAfterSwitch(c, ss[k], fs[k]);
    ArrangedPrefers(fs[k].armours);
    if fs[k].armours != [] { assert fs[k].armours[0] in fs[k].armours; }
    if Arranged(fs[k].armours) != [] { assert Arranged(fs[k].armours)[0] in Arranged(fs[k].armours); }
  }

  // ----- From "lost" -----

  ghost predicate FoundAt(ss: seq<State>, fs: seq<OmniFrame>, j: int)
    requires |ss| == |fs| + 1 && 0 <= j < |fs|
  {
    OmniFound(ss[j], fs[j])
  }

  ghost predicate DetectingAt(ss: seq<State>, j: int)
    requires 0 <= j < |ss|
  {
    ss[j].phase == Detecting
  }

  ghost predicate LostAt(ss: seq<State>, fs: seq<OmniFrame>, j: int)
    requires |ss| == |fs| + 1 && 0 <= j < |fs|
  {
    AfterTimeout(ss[j], fs[j].t) == Lost
  }

  /** The last n frames before state k all found something; the first of them was
      dispatched as lost, and the states in between are all detecting. */
  ghost predicate OmniFoundLast(ss: seq<State>, fs: seq<OmniFrame>, k: nat, n: int)
    requires |ss| == |fs| + 1 && k < |ss|
  {
    && 1 <= n <= k
    && (forall j :: k - n <= j < k ==> FoundAt(ss, fs, j))
    && (forall j :: k - n < j < k ==> DetectingAt(ss, j))
    && LostAt(ss, fs, k - n)
  }

  lemma OmniFoundOnceMore(ss: seq<State>, fs: seq<OmniFrame>, k: nat, n: int)
    requires |ss| == |fs| + 1 && k < |fs| && OmniFoundLast(ss, fs, k, n)
    requires FoundAt(ss, fs, k) && DetectingAt(ss, k)
    ensures OmniFoundLast(ss, fs, k + 1, n + 1)
  {
  }

  lemma StepIntoDetecting(c: Config, ss: seq<State>, fs: seq<OmniFrame>, j: nat)
    requires OmniRun(c, ss, fs) && j < |fs| && ss[j + 1].phase == Detecting && ss[j + 1].pre != Switching
    ensures FoundAt(ss, fs, j)
    ensures if LostAt(ss, fs, j) then ss[j + 1].detectCount == 1
            else ss[j].phase == Detecting && ss[j].pre != Switching
                 && ss[j + 1].detectCount == ss[j].detectCount + 1 < c.minDetect
  {
    RunDetects(c, ss, fs, j);
    assert OmniStep(c, ss, fs, j);
    FrameIntoDetecting(c, ss[j], fs[j]);
  }

  lemma StepIntoTracking(c: Config, ss: seq<State>, fs: seq<OmniFrame>, j: nat)
    requires OmniRun(c, ss, fs) && j < |fs| && ss[j + 1].phase == Tracking && !Locked(ss[j].phase)
    ensures ss[j].phase == Detecting && FoundAt(ss, fs, j) && ss[j].detectCount + 1 >= c.minDetect
  {
    assert OmniStep(c, ss, fs, j);
    FrameIntoTracking(c, ss[j], fs[j]);
  }

  lemma {:induction false} OmniDetectionCounts(c: Config, ss: seq<State>, fs: seq<OmniFrame>, k: nat)
    requires OmniRun(c, ss, fs) && k < |ss| && ss[k].phase == Detecting && ss[k].pre != Switching
    ensures OmniFoundLast(ss, fs, k, ss[k].detectCount)
    ensures ss[k].detectCount == 1 || ss[k].detectCount < c.minDetect
  {
    StepIntoDetecting(c, ss, fs, k - 1);
    if !LostAt(ss, fs, k - 1) {
      OmniDetectionCounts(c, ss, fs, k - 1);
      OmniFoundOnceMore(ss, fs, k - 1, ss[k - 1].detectCount);
    }
  }

  /** Main result 2: "tracking" is entered only from a temporary loss, right after a
      switch, or after exactly max(2, min_detect_count) consecutive finds, the first of
      them from "lost". */
  lemma OmniTrackingNeedsDetections(c: Config, ss: seq<State>, fs: seq<OmniFrame>, k: nat)
    requires OmniRun(c, ss, fs) && 1 <= k < |ss|
    requires ss[k].phase == Tracking && !Locked(ss[k - 1].phase)
    ensures AfterSwitch(ss[k - 1]) || OmniFoundLast(ss, fs, k, if c.minDetect > 2 then c.minDetect else 2)
  {
    StepIntoTracking(c, ss, fs, k - 1);
    if ss[k - 1].pre != Switching {
      var n := ss[k - 1].detectCount;
      OmniDetectionCounts(c, ss, fs, k - 1);
      OmniFoundOnceMore(ss, fs, k - 1, n);
      assert n + 1 == if c.minDetect > 2 then c.minDetect else 2;
    }
  }
}
