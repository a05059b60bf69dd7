/** The command mailbox between the two threads of src/sentry.cpp: the main loop
    posts the commands of a frame into three one-place slots, one lock at a
    time; the communication thread publishes whether the link is up, empties all
    three slots under one lock and then sends what it took.  The steps of the
    state machine are those critical sections, in every interleaving. */
module Mailbox {
  import opened Basics
  import opened Armor

  // ----- The firing gate: src/referee_runtime.hpp -----

  const REFEREE_STALE_NS: nat := 1000 * 1000 * 1000

  datatype RefereeView = RefereeView(valid: bool, fireAllowed: bool, enemyTeam: int, hostTsNs: nat)

  predicate IsFresh(ref: RefereeView, now: nat, staleNs: nat) {
    ref.hostTsNs != 0 && ref.hostTsNs <= now && now - ref.hostTsNs <= staleNs
  }

  predicate CanFire(ref: RefereeView, now: nat, staleNs: nat) {
    ref.valid && IsFresh(ref, now, staleNs) && ref.fireAllowed
  }

  /** The override of the enemy colour; it needs the same freshness as the gate. */
  function EnemyColor(ref: RefereeView, now: nat): (r: Option<Color>)
    ensures r.Some? <==> ref.valid && 0 < ref.hostTsNs <= now <= ref.hostTsNs + 1000000000 && ref.enemyTeam in {1, 2}
    ensures r.Some? ==> (r.value == Red <==> ref.enemyTeam == 1) && (r.value == Blue <==> ref.enemyTeam == 2)
  {
    if !(ref.valid && IsFresh(ref, now, REFEREE_STALE_NS)) then None
    else if ref.enemyTeam == 1 then Some(Red)
    else if ref.enemyTeam == 2 then Some(Blue)
    else None
  }

  // ----- Commands -----

  /** What one pass of the main loop decides before it posts anything. */
  datatype Decision = Decision(
    wantsShot: bool, control: bool, allowShoot: bool, ref: RefereeView, now: nat,
    dyaw: int, dpitch: int, hostTs: nat)

  function Shoot(d: Decision): bool {
    d.wantsShot && d.allowShoot && CanFire(d.ref, d.now, REFEREE_STALE_NS)
  }

  datatype Command =
    | GimbalDelta(dyaw: int, dpitch: int, status: int, ts: nat)
    | FireCommand(on: bool, mode: int, burst: int, status: int, ts: nat)
    | ChassisCommand(vx: int, vy: int, wz: int, mode: int, status: int, ts: nat)

  function DeltaOf(d: Decision): Command {
    GimbalDelta(if d.control then d.dyaw else 0, if d.control then d.dpitch else 0, if d.control then 1 else 0, d.hostTs)
  }

  function FireOf(d: Decision): Command {
    FireCommand(Shoot(d), 2, if Shoot(d) then 2 else 0, if d.control then 1 else 0, d.hostTs)
  }

  function ChassisOf(d: Decision): Command { ChassisCommand(0, 0, 0, 3, 0, d.hostTs) }

  datatype Channel = Delta | Fire | Chassis

  function CommandOf(c: Channel, d: Decision): Command {
    match c
    case Delta => DeltaOf(d)
    case Fire => FireOf(d)
    case Chassis => ChassisOf(d)
  }

  // ----- One channel -----

  /** A queued command: the how-manieth frame that posted, which pass of the main
      loop that was, and the command. */
  datatype Post = Post(index: nat, pass: nat, command: Command)

  /** The one-place slot, the communication thread's local copy of it, and the
      full histories of what was queued and sent. */
  datatype Lane = Lane(slot: Option<Post>, held: Option<Post>, queued: seq<Post>, sent: seq<Post>)

  const EMPTY: Lane := Lane(None, None, [], [])

  function Queue(l: Lane, p: Post): Lane { l.(slot := Some(p), queued := l.queued + [p]) }
  function Take(l: Lane): Lane { l.(slot := None, held := l.slot) }
  function Send(l: Lane): Lane {
    match l.held
    case None => l
    case Some(p) => l.(held := None, sent := l.sent + [p])
  }

  predicate Known(l: Lane, p: Post) { 1 <= p.index <= |l.queued| && p == l.queued[p.index - 1] }

  ghost predicate Numbered(l: Lane) {
    forall i :: 0 <= i < |l.queued| ==> l.queued[i].index == i + 1
  }

  ghost predicate SentInOrder(l: Lane) {
    && (forall i :: 0 <= i < |l.sent| ==> Known(l, l.sent[i]))
    && (forall i, j :: 0 <= i < j < |l.sent| ==> l.sent[i].index < l.sent[j].index)
  }

  /** All that was sent is older than p. */
  ghost predicate Newer(l: Lane, p: Post) {
    Known(l, p) && forall i :: 0 <= i < |l.sent| ==> l.sent[i].index < p.index
  }

  /** The newest queued command is waiting, in flight or the last one sent. */
  ghost predicate NewestKept(l: Lane) {
    l.queued != [] ==>
      var p := l.queued[|l.queued| - 1];
      l.slot == Some(p) || (l.slot == None && (l.held == Some(p) || (l.held == None && l.sent != [] && l.sent[|l.sent| - 1] == p)))
  }

  ghost predicate LaneOk(l: Lane) {
    && Numbered(l) && SentInOrder(l) && NewestKept(l)
    && (l.held.Some? ==> Newer(l, l.held.value))
    && (l.slot.Some? ==> Newer(l, l.slot.value) && l.slot.value.index == |l.queued|)
    && (l.slot.Some? && l.held.Some? ==> l.held.value.index < l.slot.value.index)
  }

  lemma QueueOk(l: Lane, p: Post)
    requires LaneOk(l) && p.index == |l.queued| + 1
    ensures LaneOk(Queue(l, p))
  {
  }

  lemma TakeOk(l: Lane)
    requires LaneOk(l) && l.held == None
    ensures LaneOk(Take(l)) && Take(l).queued == l.queued
  {
  }

  lemma SendOk(l: Lane)
    requires LaneOk(l)
    ensures LaneOk(Send(l)) && Send(l).held == None && Send(l).queued == l.queued
  {
  }

  // ----- Both threads -----

  datatype Lanes = Lanes(delta: Lane, fire: Lane, chassis: Lane) {
    function Of(c: Channel): Lane {
      match c
      case Delta => delta
      case Fire => fire
      case Chassis => chassis
    }

    function With(c: Channel, l: Lane): (r: Lanes)
      ensures r.Of(c) == l
      ensures forall o :: o != c ==> r.Of(o) == Of(o)
    {
      match c
      case Delta => this.(delta := l)
      case Fire => this.(fire := l)
      case Chassis => this.(chassis := l)
    }
  }

  /** Where each thread is in its loop. */
  datatype Main = Deciding | Posting(next: Channel, d: Decision)
  datatype Comm = Stepping | Taking | Sending(next: Channel)

  /** A frame that found the link up and so goes on to post. */
  datatype Record = Record(pass: nat, d: Decision)

  datatype State = State(lanes: Lanes, main: Main, comm: Comm, established: bool, passes: nat, decided: seq<Record>)

  const INIT: State := State(Lanes(EMPTY, EMPTY, EMPTY), Deciding, Stepping, false, 0, [])

  datatype Action =
    | Decide(d: Decision)   // one pass of the main loop up to its read of `established`
    | PostNext              // one queue_* call
    | Publish(up: bool)     // the communication thread stores `established`
    | TakeAll               // its critical section
    | SendNext              // one send_* call, or none where the slot was empty

  function After(c: Channel): Option<Channel> {
    match c
    case Delta => Some(Fire)
    case Fire => Some(Chassis)
    case Chassis => None
  }

  predicate Enabled(s: State, a: Action) {
    match a
    case Decide(_) => s.main.Deciding?
    case PostNext => s.main.Posting?
    case Publish(_) => s.comm.Stepping?
    case TakeAll => s.comm.Taking?
    case SendNext => s.comm.Sending?
  }

  function Next(s: State, a: Action): State
    requires Enabled(s, a)
  {
    match a
    case Decide(d) =>
      var n := s.(passes := s.passes + 1);
      if s.established then n.(main := Posting(Delta, d), decided := s.decided + [Record(n.passes, d)]) else n
    case PostNext =>
      var c, d := s.main.next, s.main.d;
      s.(lanes := s.lanes.With(c, Queue(s.lanes.Of(c), Post(|s.decided|, s.passes, CommandOf(c, d)))),
         main := match After(c) case Some(n) => Posting(n, d) case None => Deciding)
    case Publish(up) => s.(established := up, comm := Taking)
    case TakeAll =>
      s.(lanes := Lanes(Take(s.lanes.delta), Take(s.lanes.fire), Take(s.lanes.chassis)), comm := Sending(Delta))
    case SendNext =>
      var c := s.comm.next;
      s.(lanes := s.lanes.With(c, Send(s.lanes.Of(c))),
         comm := match After(c) case Some(n) => Sending(n) case None => Stepping)
  }

  ghost predicate Trace(ss: seq<State>, actions: seq<Action>) {
    && |ss| == |actions| + 1 && ss[0] == INIT
    && forall i :: 0 <= i < |actions| ==> Enabled(ss[i], actions[i]) && ss[i + 1] == Next(ss[i], actions[i])
  }

  // ----- What every interleaving keeps -----

  function Rank(c: Channel): nat { match c case Delta => 0 case Fire => 1 case Chassis => 2 }

  /** How many frames have posted on channel c: all, or all but the current one. */
  function Posted(s: State, c: Channel): int {
    if s.main.Posting? && Rank(c) >= Rank(s.main.next) then |s.decided| - 1 else |s.decided|
  }

  ghost predicate DecidedOk(s: State) {
    && (forall i :: 0 <= i < |s.decided| ==> s.decided[i].pass <= s.passes)
    && (forall i, j :: 0 <= i < j < |s.decided| ==> s.decided[i].pass < s.decided[j].pass)
    && (s.main.Posting? ==> s.decided != [] && s.decided[|s.decided| - 1] == Record(s.passes, s.main.d))
  }

  /** Every queued command is what its frame decided. */
  ghost predicate Genuine(s: State, c: Channel, q: seq<Post>) {
    && |q| <= |s.decided|
    && forall i :: 0 <= i < |q| ==>
         q[i].pass == s.decided[i].pass && q[i].command == CommandOf(c, s.decided[i].d)
  }

  ghost predicate ChannelOk(s: State, c: Channel) {
    && LaneOk(s.lanes.Of(c)) && |s.lanes.Of(c).queued| == Posted(s, c) && Genuine(s, c, s.lanes.Of(c).queued)
    && (s.lanes.Of(c).held.Some? ==> s.comm.Sending? && Rank(c) >= Rank(s.comm.next))
  }

  ghost predicate Inv(s: State) { DecidedOk(s) && forall c :: ChannelOk(s, c) }

  lemma KeepsDecided(s: State, a: Action)
    requires Enabled(s, a) && DecidedOk(s)
    ensures DecidedOk(Next(s, a))
  {
  }

  /** Genuine says nothing about the threads. */
  lemma GenuineKept(s: State, n: State, c: Channel, q: seq<Post>)
    requires Genuine(s, c, q) && n.decided == s.decided
    ensures Genuine(n, c, q)
  {
  }

  lemma GenuineGrows(s: State, c: Channel, q: seq<Post>, p: Post)
    requires Genuine(s, c, q) && |q| < |s.decided|
    requires p.pass == s.decided[|q|].pass && p.command == CommandOf(c, s.decided[|q|].d)
    ensures Genuine(s, c, q + [p])
  {
  }

  /** The channel that posts. */
  lemma KeepsOwnPost(s: State)
    requires s.main.Posting? && DecidedOk(s) && ChannelOk(s, s.main.next)
    ensures ChannelOk(Next(s, PostNext), s.main.next)
  {
    var c, n := s.main.next, Next(s, PostNext);
    var l, p := s.lanes.Of(c), Post(|s.decided|, s.passes, CommandOf(c, s.main.d));
    QueueOk(l, p);
    GenuineGrows(s, c, l.queued, p);
    assert n.lanes.Of(c) == Queue(l, p);
    GenuineKept(s, n, c, l.queued + [p]);
  }

  lemma KeepsPost(s: State, c: Channel)
    requires s.main.Posting? && DecidedOk(s) && ChannelOk(s, c)
    ensures ChannelOk(Next(s, PostNext), c)
  {
    if c == s.main.next {
      KeepsOwnPost(s);
    } else {
      var n := Next(s, PostNext);
      assert n.lanes.Of(c) == s.lanes.Of(c);
      GenuineKept(s, n, c, s.lanes.Of(c).queued);
    }
  }

  lemma KeepsOwnSend(s: State)
    requires s.comm.Sending? && ChannelOk(s, s.comm.next)
    ensures ChannelOk(Next(s, SendNext), s.comm.next)
  {
    var c, n := s.comm.next, Next(s, SendNext);
    SendOk(s.lanes.Of(c));
    assert n.lanes.Of(c) == Send(s.lanes.Of(c));
    GenuineKept(s, n, c, s.lanes.Of(c).queued);
  }

  lemma KeepsSend(s: State, c: Channel)
    requires s.comm.Sending? && ChannelOk(s, c)
    ensures ChannelOk(Next(s, SendNext), c)
  {
    if c == s.comm.next {
      KeepsOwnSend(s);
    } else {
      var n := Next(s, SendNext);
      assert n.lanes.Of(c) == s.lanes.Of(c);
      GenuineKept(s, n, c, s.lanes.Of(c).queued);
    }
  }

  lemma KeepsTake(s: State, c: Channel)
    requires s.comm.Taking? && ChannelOk(s, c)
    ensures ChannelOk(Next(s, TakeAll), c)
  {
    TakeOk(s.lanes.Of(c));
    assert Next(s, TakeAll).lanes.Of(c) == Take(s.lanes.Of(c));
  }

  lemma KeepsChannel(s: State, a: Action, c: Channel)
    requires Enabled(s, a) && DecidedOk(s) && ChannelOk(s, c)
    ensures ChannelOk(Next(s, a), c)
  {
    match a
    case PostNext => KeepsPost(s, c);
    case TakeAll => KeepsTake(s, c);
    case SendNext => KeepsSend(s, c);
    case _ => assert Next(s, a).lanes.Of(c) == s.lanes.Of(c);
  }

  lemma Keeps(s: State, a: Action)
    requires Enabled(s, a) && Inv(s)
    ensures Inv(Next(s, a))
  {
    KeepsDecided(s, a);
    forall c ensures ChannelOk(Next(s, a), c) { KeepsChannel(s, a, c); }
  }

  lemma InitOk()
    ensures Inv(INIT)
  {
    forall c ensures ChannelOk(INIT, c) { assert INIT.lanes.Of(c) == EMPTY; }
  }

  lemma {:induction false} EveryTraceKeeps(ss: seq<State>, actions: seq<Action>, i: nat)
    requires Trace(ss, actions) && i < |ss|
    ensures Inv(ss[i])
  {
    if i == 0 {
      InitOk();
    } else {
      EveryTraceKeeps(ss, actions, i - 1);
      Keeps(ss[i - 1], actions[i - 1]);
      assert ss[i - 1 + 1] == Next(ss[i - 1], actions[i - 1]);
    }
  }

  // ----- The promises -----

  /** t is q with some elements left out: same order, nothing twice. */
  ghost predicate Subsequence(t: seq<Post>, q: seq<Post>) {
    exists f: seq<nat> :: Picks(t, q, f)
  }

  ghost predicate Picks(t: seq<Post>, q: seq<Post>, f: seq<nat>) {
    && |f| == |t|
    && (forall i, j :: 0 <= i < j < |f| ==> f[i] < f[j])
    && (forall i :: 0 <= i < |f| ==> f[i] < |q| && t[i] == q[f[i]])
  }

  lemma LaneSelects(l: Lane)
    requires LaneOk(l)
    ensures Subsequence(l.sent, l.queued)
  {
    assert forall k :: 0 <= k < |l.sent| ==> Known(l, l.sent[k]);
    var f: seq<nat> := seq(|l.sent|, k requires 0 <= k < |l.sent| && Known(l, l.sent[k]) => l.sent[k].index - 1);
    assert Picks(l.sent, l.queued, f);
  }

  /** Per channel, what was sent is an order-preserving, duplicate-free selection
      of what was queued, and the newest command is never lost: once both threads
      are done with a channel, its last sent command is its last queued one. */
  lemma SentIsSelectionOfQueued(ss: seq<State>, actions: seq<Action>, i: nat, c: Channel)
    requires Trace(ss, actions) && i < |ss|
    ensures var l := ss[i].lanes.Of(c);
      && Subsequence(l.sent, l.queued)
      && (l.slot == None && l.held == None && l.queued != [] ==>
            l.sent != [] && l.sent[|l.sent| - 1] == l.queued[|l.queued| - 1])
  {
    EveryTraceKeeps(ss, actions, i);
    assert ChannelOk(ss[i], c);
    LaneSelects(ss[i].lanes.Of(c));
  }

  /** A command sent later was decided in a strictly later pass of the main loop:
      in particular no older fire-on follows a newer fire-off. */
  lemma NoStaleCommand(ss: seq<State>, actions: seq<Action>, i: nat, c: Channel, j: nat, k: nat)
    requires Trace(ss, actions) && i < |ss|
    requires j < k < |ss[i].lanes.Of(c).sent|
    ensures ss[i].lanes.Of(c).sent[j].pass < ss[i].lanes.Of(c).sent[k].pass
  {
    EveryTraceKeeps(ss, actions, i);
    assert ChannelOk(ss[i], c);
    var l := ss[i].lanes.Of(c);
    assert Known(l, l.sent[j]) && Known(l, l.sent[k]);
  }

  /** The decision behind a fire-on let the robot fire. */
  ghost predicate Licensed(s: State, p: Post) {
    exists r :: r in s.decided && r.pass == p.pass
      && r.d.allowShoot && r.d.ref.valid && r.d.ref.fireAllowed
      && r.d.ref.hostTsNs != 0 && r.d.ref.hostTsNs <= r.d.now <= r.d.ref.hostTsNs + REFEREE_STALE_NS
  }

  lemma FireOnIsLicensed(ss: seq<State>, actions: seq<Action>, i: nat, k: nat)
    requires Trace(ss, actions) && i < |ss|
    requires k < |ss[i].lanes.fire.sent|
    requires var cmd := ss[i].lanes.fire.sent[k].command; cmd.FireCommand? ==> cmd.on
    ensures ss[i].lanes.fire.sent[k].command.FireCommand?
    ensures Licensed(ss[i], ss[i].lanes.fire.sent[k])
  {
    EveryTraceKeeps(ss, actions, i);
    assert ChannelOk(ss[i], Fire);
    var l := ss[i].lanes.fire;
    var p := l.sent[k];
    assert l == ss[i].lanes.Of(Fire) && Known(l, p);
    var r := ss[i].decided[p.index - 1];
    assert p.command == FireOf(r.d) && r in ss[i].decided;
  }

  /** The robot may fire: the shooter wants to, shooting is allowed, and the referee's
      view is valid, permits it and is at most a second old. */
  ghost predicate Permits(d: Decision) {
    && d.wantsShot && d.allowShoot && d.ref.valid && d.ref.fireAllowed
    && 0 < d.ref.hostTsNs <= d.now <= d.ref.hostTsNs + 1000000000
  }

  /** The record of the frame behind a sent command. */
  lemma FrameOf(ss: seq<State>, actions: seq<Action>, i: nat, c: Channel, k: nat) returns (r: Record)
    requires Trace(ss, actions) && i < |ss| && k < |ss[i].lanes.Of(c).sent|
    ensures var p := ss[i].lanes.Of(c).sent[k];
      r in ss[i].decided && r.pass == p.pass && p.command == CommandOf(c, r.d)
  {
    EveryTraceKeeps(ss, actions, i);
    assert ChannelOk(ss[i], c);
    var l := ss[i].lanes.Of(c);
    assert Known(l, l.sent[k]);
    r := ss[i].decided[l.sent[k].index - 1];
  }

  /** Over every interleaving, a fire command that is sent is on exactly when the pass it
      comes from permitted it, with a burst of two just then and none otherwise. */
  lemma FireIsOnIff(ss: seq<State>, actions: seq<Action>, i: nat, k: nat)
    requires Trace(ss, actions) && i < |ss| && k < |ss[i].lanes.fire.sent|
    ensures var p := ss[i].lanes.fire.sent[k];
      exists r :: r in ss[i].decided && r.pass == p.pass
        && p.command == FireCommand(Permits(r.d), 2, if Permits(r.d) then 2 else 0, if r.d.control then 1 else 0, r.d.hostTs)
  {
    var r := FrameOf(ss, actions, i, Fire, k);
  }

  /** A gimbal command that is sent carries the angles of its pass, and none without a
      target to control for. */
  lemma DeltaIsOfItsPass(ss: seq<State>, actions: seq<Action>, i: nat, k: nat)
    requires Trace(ss, actions) && i < |ss| && k < |ss[i].lanes.delta.sent|
    ensures var p := ss[i].lanes.delta.sent[k];
      exists r :: r in ss[i].decided && r.pass == p.pass
        && p.command == if r.d.control then GimbalDelta(r.d.dyaw, r.d.dpitch, 1, r.d.hostTs)
                        else GimbalDelta(0, 0, 0, r.d.hostTs)
  {
    var r := FrameOf(ss, actions, i, Delta, k);
  }

  /** A chassis command that is sent never moves the robot. */
  lemma ChassisStandsStill(ss: seq<State>, actions: seq<Action>, i: nat, k: nat)
    requires Trace(ss, actions) && i < |ss| && k < |ss[i].lanes.chassis.sent|
    ensures var p := ss[i].lanes.chassis.sent[k];
      exists r :: r in ss[i].decided && r.pass == p.pass && p.command == ChassisCommand(0, 0, 0, 3, 0, r.d.hostTs)
  {
    var r := FrameOf(ss, actions, i, Chassis, k);
  }

  /** What one lock takes out of two slots was posted by the same frame or by two
      consecutive posting frames, the earlier channel never being behind. */
  lemma BatchWithinOne(ss: seq<State>, actions: seq<Action>, i: nat, b: Channel, c: Channel)
    requires Trace(ss, actions) && i < |actions| && actions[i] == TakeAll && Rank(b) < Rank(c)
    requires ss[i + 1].lanes.Of(b).held.Some? && ss[i + 1].lanes.Of(c).held.Some?
    ensures ss[i + 1] == Next(ss[i], TakeAll)
    ensures var p, q := ss[i + 1].lanes.Of(b).held.value, ss[i + 1].lanes.Of(c).held.value;
      && q.index <= p.index <= q.index + 1
      && p.index <= |ss[i].decided| && 1 <= q.index
      && p.pass == ss[i].decided[p.index - 1].pass && q.pass == ss[i].decided[q.index - 1].pass
  {
    EveryTraceKeeps(ss, actions, i);
    var s := ss[i];
    assert ChannelOk(s, b) && ChannelOk(s, c);
    assert Enabled(s, actions[i]) && ss[i + 1] == Next(s, actions[i]);
    assert forall o :: ss[i + 1].lanes.Of(o) == Take(s.lanes.Of(o));
  }

  /** Step k is a pass of the main loop that lies strictly between passes m and n. */
  ghost predicate PassBetween(ss: seq<State>, actions: seq<Action>, k: int, m: nat, n: nat)
    requires |ss| == |actions| + 1
  {
    0 <= k < |actions| && actions[k].Decide? && m < ss[k].passes + 1 < n
  }

  /** A pass that found the link up stays on record. */
  lemma {:induction false} RecordStays(ss: seq<State>, actions: seq<Action>, k: nat, i: nat)
    requires Trace(ss, actions) && k < i < |ss| && actions[k].Decide? && ss[k].established
    ensures exists r :: r in ss[i].decided && r.pass == ss[k].passes + 1
  {
    assert ss[i - 1 + 1] == Next(ss[i - 1], actions[i - 1]);
    if k == i - 1 {
      assert ss[i].decided[|ss[k].decided|].pass == ss[k].passes + 1;
    } else {
      RecordStays(ss, actions, k, i - 1);
      var r :| r in ss[i - 1].decided && r.pass == ss[k].passes + 1;
      assert r in ss[i].decided;
    }
  }

  /** Every number up to the current one is that of some pass. */
  lemma {:induction false} PassHappened(ss: seq<State>, actions: seq<Action>, i: nat, n: nat) returns (k: nat)
    requires Trace(ss, actions) && i < |ss| && 1 <= n <= ss[i].passes
    ensures k < i && actions[k].Decide? && ss[k].passes + 1 == n
  {
    assert i > 0 && ss[i - 1 + 1] == Next(ss[i - 1], actions[i - 1]);
    if n <= ss[i - 1].passes { k := PassHappened(ss, actions, i - 1, n); } else { k := i - 1; }
  }

  /** Every pass of the main loop between the two read that the link was down. */
  lemma NoFrameBetween(ss: seq<State>, actions: seq<Action>, i: nat, b: Channel, c: Channel, k: nat)
    requires Trace(ss, actions) && i < |actions| && actions[i] == TakeAll && Rank(b) < Rank(c)
    requires ss[i + 1].lanes.Of(b).held.Some? && ss[i + 1].lanes.Of(c).held.Some?
    requires k < i
    ensures var p, q := ss[i + 1].lanes.Of(b).held.value, ss[i + 1].lanes.Of(c).held.value;
      PassBetween(ss, actions, k, q.pass, p.pass) ==> !ss[k].established
  {
    BatchWithinOne(ss, actions, i, b, c);
    EveryTraceKeeps(ss, actions, i);
    var p, q := ss[i + 1].lanes.Of(b).held.value, ss[i + 1].lanes.Of(c).held.value;
    NothingBetween(ss[i], q.index, p.index);
    if PassBetween(ss, actions, k, q.pass, p.pass) && ss[k].established { RecordStays(ss, actions, k, i); }
  }

  /** So the passes behind one batch are at most one apart exactly when no pass between
      them read that the link was down. */
  lemma BatchWithinOnePassIff(ss: seq<State>, actions: seq<Action>, i: nat, b: Channel, c: Channel)
    requires Trace(ss, actions) && i < |actions| && actions[i] == TakeAll && Rank(b) < Rank(c)
    requires ss[i + 1].lanes.Of(b).held.Some? && ss[i + 1].lanes.Of(c).held.Some?
    ensures var p, q := ss[i + 1].lanes.Of(b).held.value, ss[i + 1].lanes.Of(c).held.value;
      p.pass <= q.pass + 1 <==>
      !exists k :: 0 <= k < i && PassBetween(ss, actions, k, q.pass, p.pass) && !ss[k].established
  {
    var p, q := ss[i + 1].lanes.Of(b).held.value, ss[i + 1].lanes.Of(c).held.value;
    if p.pass > q.pass + 1 {
      BatchWithinOne(ss, actions, i, b, c);
      EveryTraceKeeps(ss, actions, i);
      var k := PassHappened(ss, actions, i, q.pass + 1);
      assert PassBetween(ss, actions, k, q.pass, p.pass);
      NoFrameBetween(ss, actions, i, b, c, k);
    }
  }

  lemma NothingBetween(s: State, m: nat, n: nat)
    requires DecidedOk(s) && 1 <= m <= n <= m + 1 && n <= |s.decided|
    ensures forall r :: r in s.decided ==> r.pass <= s.decided[m - 1].pass || s.decided[n - 1].pass <= r.pass
  {
    forall r | r in s.decided ensures r.pass <= s.decided[m - 1].pass || s.decided[n - 1].pass <= r.pass {
      var j :| 0 <= j < |s.decided| && s.decided[j] == r;
    }
  }

  /** A trace goes on with any enabled action. */
  lemma Extend(ss: seq<State>, actions: seq<Action>, a: Action) returns (ss': seq<State>, actions': seq<Action>, s: State)
    requires Trace(ss, actions) && Enabled(ss[|actions|], a)
    ensures Trace(ss', actions') && ss' == ss + [s] && actions' == actions + [a]
    ensures s == Next(ss[|actions|], a) == ss'[|actions'|]
  {
    s := Next(ss[|actions|], a);
    ss', actions' := ss + [s], actions + [a];
  }

  /** The communication thread finds nothing to send. */
  lemma EmptyRound(ss: seq<State>, actions: seq<Action>) returns (ss': seq<State>, actions': seq<Action>, s: State)
    requires Trace(ss, actions) && ss[|actions|].comm.Taking? && ss[|actions|].lanes == INIT.lanes
    ensures Trace(ss', actions') && s == ss[|actions|].(comm := Stepping) == ss'[|actions'|]
  {
    ss', actions', s := Extend(ss, actions, TakeAll);
    ss', actions', s := Extend(ss', actions', SendNext);
    ss', actions', s := Extend(ss', actions', SendNext);
    ss', actions', s := Extend(ss', actions', SendNext);
  }

  /** A frame is decided, the link goes down, and its commands stay in their slots. */
  lemma CommandsStay(d: Decision) returns (ss: seq<State>, actions: seq<Action>, s: State)
    ensures Trace(ss, actions) && s == ss[|actions|] && Waiting(s) && s.passes == 1
  {
    ss, actions := [INIT], [];
    ss, actions, s := Extend(ss, actions, Publish(true));
    ss, actions, s := Extend(ss, actions, Decide(d));
    ss, actions, s := EmptyRound(ss, actions);
    ss, actions, s := Extend(ss, actions, Publish(false));
    ss, actions, s := EmptyRound(ss, actions);
    ss, actions, s := PostAll(ss, actions);
  }

  /** The link is down, and a command of the first pass has not been taken. */
  ghost predicate Waiting(s: State) {
    && s.main.Deciding? && s.comm.Stepping? && !s.established
    && s.lanes.fire.slot.Some? && s.lanes.fire.slot.value.pass == 1
  }

  lemma PostAll(ss: seq<State>, actions: seq<Action>) returns (ss': seq<State>, actions': seq<Action>, s: State)
    requires Trace(ss, actions) && var s := ss[|actions|]; s.main.Posting? && s.main.next == Delta && s.passes == 1
    requires ss[|actions|].comm.Stepping? && !ss[|actions|].established
    ensures Trace(ss', actions') && s == ss'[|actions'|] && Waiting(s) && s.passes == 1
  {
    ss', actions', s := Extend(ss, actions, PostNext);
    ss', actions', s := Extend(ss', actions', PostNext);
    ss', actions', s := Extend(ss', actions', PostNext);
  }

  /** Passes that find the link down. */
  lemma {:induction false} SkippedPasses(ss: seq<State>, actions: seq<Action>, d: Decision, n: nat)
    returns (ss': seq<State>, actions': seq<Action>, s: State)
    requires Trace(ss, actions) && Waiting(ss[|actions|])
    ensures Trace(ss', actions') && s == ss'[|actions'|] && Waiting(s) && s.passes == ss[|actions|].passes + n
    decreases n
  {
    ss', actions', s := ss, actions, ss[|actions|];
    if n > 0 {
      ss', actions', s := Extend(ss, actions, Decide(d));
      ss', actions', s := SkippedPasses(ss', actions', d, n - 1);
    }
  }

  /** Consecutive posting frames need not be consecutive passes: a pass that finds
      the link down posts nothing, and a command left in its slot across any
      number n of such passes goes out together with one of the pass after them. */
  lemma BatchMaySpanSkippedPasses(d: Decision, n: nat) returns (ss: seq<State>, actions: seq<Action>)
    ensures Trace(ss, actions) && actions != [] && actions[|actions| - 1] == TakeAll
    ensures var l := ss[|actions|].lanes;
      && l.delta.held.Some? && l.fire.held.Some?
      && l.delta.held.value.pass == l.fire.held.value.pass + n + 1
  {
    var s;
    ss, actions, s := CommandsStay(d);
    ss, actions, s := SkippedPasses(ss, actions, d, n);
    ss, actions, s := Extend(ss, actions, Publish(true));
    ss, actions, s := Extend(ss, actions, Decide(d));
    ss, actions, s := Extend(ss, actions, PostNext);
    ss, actions, s := Extend(ss, actions, TakeAll);
  }

  // ----- The object -----

  /** The shared object: each method is one critical section, and is exactly one
      step of the protocol, whose history the ghost field keeps. */
  class DmWorker {
    var pending: Option<Command>
    var pendingFire: Option<Command>
    var pendingChassis: Option<Command>
    ghost var s: State

    static function Body(p: Option<Post>): Option<Command> {
      if p.Some? then Some(p.value.command) else None
    }

    ghost predicate Valid()
      reads this
    {
      && Inv(s)
      && pending == Body(s.lanes.delta.slot)
      && pendingFire == Body(s.lanes.fire.slot)
      && pendingChassis == Body(s.lanes.chassis.slot)
    }

    constructor ()
      ensures Valid() && s == INIT
    {
      pending, pendingFire, pendingChassis := None, None, None;
      s := INIT;
      new;
      InitOk();
    }

    method QueueDelta(delta: Command)
      requires Valid() && s.main.Posting? && s.main.next == Delta && delta == DeltaOf(s.main.d)
      modifies this
      ensures Valid() && Enabled(old(s), PostNext) && s == Next(old(s), PostNext)
      ensures pending == Some(delta) && pendingFire == old(pendingFire) && pendingChassis == old(pendingChassis)
    {
      Keeps(s, PostNext);
      pending := Some(delta);
      s := Next(s, PostNext);
    }

    method QueueFire(fire: Command)
      requires Valid() && s.main.Posting? && s.main.next == Fire && fire == FireOf(s.main.d)
      modifies this
      ensures Valid() && Enabled(old(s), PostNext) && s == Next(old(s), PostNext)
      ensures pendingFire == Some(fire) && pending == old(pending) && pendingChassis == old(pendingChassis)
    {
      Keeps(s, PostNext);
      pendingFire := Some(fire);
      s := Next(s, PostNext);
    }

    method QueueChassis(chassis: Command)
      requires Valid() && s.main.Posting? && s.main.next == Chassis && chassis == ChassisOf(s.main.d)
      modifies this
      ensures Valid() && Enabled(old(s), PostNext) && s == Next(old(s), PostNext)
      ensures pendingChassis == Some(chassis) && pending == old(pending) && pendingFire == old(pendingFire)
    {
      Keeps(s, PostNext);
      pendingChassis := Some(chassis);
      s := Next(s, PostNext);
    }

    method TakePending() returns (cmd: Option<Command>, fireCmd: Option<Command>, chassisCmd: Option<Command>)
      requires Valid() && s.comm.Taking?
      modifies this
      ensures Valid() && Enabled(old(s), TakeAll) && s == Next(old(s), TakeAll)
      ensures pending == None && pendingFire == None && pendingChassis == None
      ensures cmd == old(pending) == Body(s.lanes.delta.held)
      ensures fireCmd == old(pendingFire) == Body(s.lanes.fire.held)
      ensures chassisCmd == old(pendingChassis) == Body(s.lanes.chassis.held)
    {
      Keeps(s, TakeAll);
      cmd := pending;
      pending := None;
      fireCmd := pendingFire;
      pendingFire := None;
      chassisCmd := pendingChassis;
      pendingChassis := None;
      s := Next(s, TakeAll);
    }
  }
}
