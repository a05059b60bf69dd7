/** The reorder buffer of tools/thread_pool.hpp: frames arrive in any order and
    leave in the order of their ids.  Every method body runs under one mutex, so
    a run is a sequence of whole calls. */
module OrderedQueue {

  /** A frame; payload stands for the image, timestamp, pose and armours. */
  datatype Frame<T> = Frame(id: int, payload: T)

  // ----- The state as a value -----

  datatype State<T> = State(main: seq<Frame<T>>, buffer: map<int, Frame<T>>, currentId: int)

  function Initial<T>(): State<T> { State([], map[], 1) }

  /** The loop that moves consecutive ids from the buffer to the queue. */
  function Drain<T>(s: State<T>): State<T>
    decreases |s.buffer|
  {
    if s.currentId in s.buffer then
      assert |s.buffer - {s.currentId}| < |s.buffer| by { Shrinks(s.buffer, s.currentId); }
      Drain(State(s.main + [s.buffer[s.currentId]], s.buffer - {s.currentId}, s.currentId + 1))
    else s
  }

  lemma Shrinks<K, V>(m: map<K, V>, k: K)
    requires k in m
    ensures |m - {k}| < |m|
  {
    assert (m - {k}).Keys == m.Keys - {k};
    assert |m.Keys - {k}| < |m.Keys|;
  }

  function Enqueued<T>(s: State<T>, f: Frame<T>): State<T> {
    if f.id < s.currentId then s
    else if f.id == s.currentId then Drain(State(s.main + [f], s.buffer, s.currentId + 1))
    else s.(buffer := s.buffer[f.id := f])
  }

  // ----- Runs -----

  datatype Event<T> = Arrive(f: Frame<T>) | Take

  /** A state together with everything dequeued so far. */
  datatype Run<T> = Run(out: seq<Frame<T>>, s: State<T>)

  function Step<T>(r: Run<T>, e: Event<T>): Run<T> {
    match e
    case Arrive(f) => r.(s := Enqueued(r.s, f))
    case Take =>
      if r.s.main == [] then r
      else Run(r.out + [r.s.main[0]], r.s.(main := r.s.main[1..]))
  }

  function Steps<T>(r: Run<T>, es: seq<Event<T>>): Run<T>
    decreases |es|
  {
    if es == [] then r else Steps(Step(r, es[0]), es[1..])
  }

  /** Everything delivered to the queue, taken or not. */
  function Delivered<T>(r: Run<T>): seq<Frame<T>> { r.out + r.s.main }

  /** The delivered ids are exactly 1, 2, ..., currentId - 1, in order, and every
      buffered id is still to come. */
  ghost predicate InOrder<T>(delivered: seq<Frame<T>>, s: State<T>) {
    && s.currentId == |delivered| + 1
    && (forall i :: 0 <= i < |delivered| ==> delivered[i].id == i + 1)
    && (forall k :: k in s.buffer ==> k > s.currentId && s.buffer[k].id == k)
  }

  /** The same while draining, when currentId itself may still be buffered. */
  ghost predicate Draining<T>(delivered: seq<Frame<T>>, s: State<T>) {
    && s.currentId == |delivered| + 1
    && (forall i :: 0 <= i < |delivered| ==> delivered[i].id == i + 1)
    && (forall k :: k in s.buffer ==> k >= s.currentId && s.buffer[k].id == k)
  }

  lemma {:induction false} DrainInOrder<T>(out: seq<Frame<T>>, s: State<T>)
    requires Draining(out + s.main, s)
    ensures InOrder(out + Drain(s).main, Drain(s))
    decreases |s.buffer|
  {
    if s.currentId in s.buffer {
      var f := s.buffer[s.currentId];
      var s' := State(s.main + [f], s.buffer - {s.currentId}, s.currentId + 1);
      Shrinks(s.buffer, s.currentId);
      assert out + s'.main == (out + s.main) + [f];
      DrainInOrder(out, s');
    }
  }

  lemma StepInOrder<T>(r: Run<T>, e: Event<T>)
    requires InOrder(Delivered(r), r.s)
    ensures InOrder(Delivered(Step(r, e)), Step(r, e).s)
  {
    match e
    case Arrive(f) =>
      if f.id == r.s.currentId {
        var s' := State(r.s.main + [f], r.s.buffer, r.s.currentId + 1);
        assert r.out + s'.main == Delivered(r) + [f];
        DrainInOrder(r.out, s');
      }
    case Take =>
      if r.s.main != [] {
        assert Delivered(Step(r, e)) == Delivered(r);
      }
  }

  /** Main result 1: along every run, from the empty queue. */
  lemma {:induction false} RunsStayInOrder<T>(r: Run<T>, es: seq<Event<T>>)
    requires InOrder(Delivered(r), r.s)
    ensures InOrder(Delivered(Steps(r, es)), Steps(r, es).s)
    decreases |es|
  {
    if es != [] {
      StepInOrder(r, es[0]);
      RunsStayInOrder(Step(r, es[0]), es[1..]);
    }
  }

  // ----- Independence of the order of arrival -----

  /** What arrived, by id. */
  ghost predicate Accounts<T>(delivered: seq<Frame<T>>, s: State<T>, all: map<int, Frame<T>>) {
    && InOrder(delivered, s)
    && Covers(delivered, s, all)
  }

  /** Nothing that arrived is lost, changed or invented. */
  ghost predicate Covers<T>(delivered: seq<Frame<T>>, s: State<T>, all: map<int, Frame<T>>) {
    && (forall k {:trigger k in all} :: 1 <= k <= |delivered| ==> k in all && all[k] == delivered[k - 1])
    && (forall k :: k in s.buffer ==> k in all && s.buffer[k] == all[k])
    && (forall k :: k in all ==> 1 <= k && (k < s.currentId || k in s.buffer))
  }

  /** The account determines the state: the delivered frames are the longest run
      of ids 1, 2, ... that has arrived, and the buffer holds the rest. */
  lemma AccountsUnique<T>(d1: seq<Frame<T>>, s1: State<T>, d2: seq<Frame<T>>, s2: State<T>, all: map<int, Frame<T>>)
    requires Accounts(d1, s1, all) && Accounts(d2, s2, all)
    ensures d1 == d2 && s1.buffer == s2.buffer && s1.currentId == s2.currentId
  {
    // the next id has not arrived in either run
    assert s1.currentId !in all && s2.currentId !in all;
    assert s1.currentId == s2.currentId;
    forall i | 0 <= i < |d1| ensures d1[i] == d2[i] {
      assert i + 1 in all;
    }
    BufferIsRest(d1, s1, all);
    BufferIsRest(d2, s2, all);
  }

  /** What has arrived beyond the next id. */
  function Beyond<T>(all: map<int, Frame<T>>, next: int): map<int, Frame<T>> {
    map k | k in all && k > next :: all[k]
  }

  lemma BufferIsRest<T>(d: seq<Frame<T>>, s: State<T>, all: map<int, Frame<T>>)
    requires Accounts(d, s, all)
    ensures s.buffer == Beyond(all, s.currentId)
  {
    assert forall k :: k in s.buffer ==> k in all && s.buffer[k] == all[k] && k > s.currentId;
    assert forall k :: k in all && k > s.currentId ==> k in s.buffer;
  }

  lemma CoversMove<T>(delivered: seq<Frame<T>>, s: State<T>, s': State<T>, all: map<int, Frame<T>>)
    requires s.currentId == |delivered| + 1 && s.currentId in s.buffer && Covers(delivered, s, all)
    requires s'.buffer == s.buffer - {s.currentId} && s'.currentId == s.currentId + 1
    ensures Covers(delivered + [s.buffer[s.currentId]], s', all)
  {
  }

  lemma {:induction false} DrainCovers<T>(out: seq<Frame<T>>, s: State<T>, all: map<int, Frame<T>>)
    requires s.currentId == |out + s.main| + 1 && Covers(out + s.main, s, all)
    ensures Covers(out + Drain(s).main, Drain(s), all)
    decreases |s.buffer|
  {
    if s.currentId in s.buffer {
      var f := s.buffer[s.currentId];
      var s' := State(s.main + [f], s.buffer - {s.currentId}, s.currentId + 1);
      Shrinks(s.buffer, s.currentId);
      assert out + s'.main == (out + s.main) + [f];
      assert Drain(s) == Drain(s');
      CoversMove(out + s.main, s, s', all);
      DrainCovers(out, s', all);
    }
  }

  lemma ArrivalCovers<T>(r: Run<T>, all: map<int, Frame<T>>, f: Frame<T>)
    requires Accounts(Delivered(r), r.s, all) && f.id >= 1 && f.id !in all
    ensures Covers(r.out + Enqueued(r.s, f).main, Enqueued(r.s, f), all[f.id := f])
  {
    assert f.id >= r.s.currentId;
    if f.id == r.s.currentId {
      var s' := State(r.s.main + [f], r.s.buffer, r.s.currentId + 1);
      assert r.out + s'.main == Delivered(r) + [f];
      assert Covers(Delivered(r) + [f], s', all[f.id := f]);
      DrainCovers(r.out, s', all[f.id := f]);
    }
  }

  lemma StepAccounts<T>(r: Run<T>, all: map<int, Frame<T>>, e: Event<T>)
    requires Accounts(Delivered(r), r.s, all)
    requires e.Arrive? ==> e.f.id >= 1 && e.f.id !in all
    ensures e.Arrive? ==> Accounts(Delivered(Step(r, e)), Step(r, e).s, all[e.f.id := e.f])
    ensures e.Take? ==> Accounts(Delivered(Step(r, e)), Step(r, e).s, all)
  {
    StepInOrder(r, e);
    match e
    case Arrive(f) => ArrivalCovers(r, all, f);
    case Take => TakeCovers(r, all);
  }

  lemma TakeCovers<T>(r: Run<T>, all: map<int, Frame<T>>)
    requires Covers(Delivered(r), r.s, all)
    ensures Covers(Delivered(Step(r, Take)), Step(r, Take).s, all)
  {
    if r.s.main != [] {
      assert Delivered(Step(r, Take)) == Delivered(r);
    }
  }

  /** The arrivals of a run, by id. */
  function Arrivals<T>(all: map<int, Frame<T>>, es: seq<Event<T>>): map<int, Frame<T>>
    decreases |es|
  {
    if es == [] then all
    else Arrivals(if es[0].Arrive? then all[es[0].f.id := es[0].f] else all, es[1..])
  }

  /** Every arrival has a positive id that has not arrived before. */
  ghost predicate Fresh<T>(all: map<int, Frame<T>>, es: seq<Event<T>>)
    decreases |es|
  {
    es != [] ==>
      && (es[0].Arrive? ==> es[0].f.id >= 1 && es[0].f.id !in all)
      && Fresh(if es[0].Arrive? then all[es[0].f.id := es[0].f] else all, es[1..])
  }

  lemma {:induction false} RunAccounts<T>(r: Run<T>, all: map<int, Frame<T>>, es: seq<Event<T>>)
    requires Accounts(Delivered(r), r.s, all) && Fresh(all, es)
    ensures Accounts(Delivered(Steps(r, es)), Steps(r, es).s, Arrivals(all, es))
    decreases |es|
  {
    if es != [] {
      StepAccounts(r, all, es[0]);
      RunAccounts(Step(r, es[0]), if es[0].Arrive? then all[es[0].f.id := es[0].f] else all, es[1..]);
    }
  }

  /** Main result 2: two runs in which the same frames arrive, in any two orders
      and with any takes in between, deliver the same frames in the same order and
      keep the same buffer. */
  lemma OrderOfArrivalIsIrrelevant<T>(es: seq<Event<T>>, fs: seq<Event<T>>)
    requires Fresh(map[], es) && Fresh(map[], fs) && Arrivals(map[], es) == Arrivals(map[], fs)
    ensures var r, q := Steps(Run([], Initial()), es), Steps(Run([], Initial()), fs);
            Delivered(r) == Delivered(q) && r.s.buffer == q.s.buffer && r.s.currentId == q.s.currentId
  {
    var start := Run([], Initial());
    RunAccounts(start, map[], es);
    RunAccounts(start, map[], fs);
    var r, q := Steps(start, es), Steps(start, fs);
    AccountsUnique(Delivered(r), r.s, Delivered(q), q.s, Arrivals(map[], es));
  }

  // ----- The object -----

  class OrderedQueue<T> {
    var mainQueue: seq<Frame<T>>
    var buffer: map<int, Frame<T>>
    var currentId: int

    ghost function Value(): State<T>
      reads this
    {
      State(mainQueue, buffer, currentId)
    }

    constructor ()
      ensures Value() == Initial()
    {
      mainQueue, buffer, currentId := [], map[], 1;
    }

    method Enqueue(item: Frame<T>)
      modifies this
      ensures Value() == Enqueued(old(Value()), item)
    {
      if item.id < currentId {
        return;
      }
      if item.id == currentId {
        mainQueue := mainQueue + [item];
        currentId := currentId + 1;
        while currentId in buffer
          invariant Drain(Value()) == Enqueued(old(Value()), item)
          decreases |buffer|
        {
          Shrinks(buffer, currentId);
          mainQueue := mainQueue + [buffer[currentId]];
          buffer := buffer - {currentId};
          currentId := currentId + 1;
        }
      } else {
        buffer := buffer[item.id := item];
      }
    }

    /** dequeue after its wait: the queue is not empty. */
    method Dequeue() returns (item: Frame<T>)
      requires mainQueue != []
      modifies this`mainQueue
      ensures item == old(mainQueue)[0] && mainQueue == old(mainQueue)[1..]
      ensures Step(Run([], old(Value())), Take) == Run([item], Value())
    {
      item := mainQueue[0];
      mainQueue := mainQueue[1..];
    }

    method TryDequeue(item: Frame<T>) returns (ok: bool, got: Frame<T>)
      modifies this`mainQueue
      ensures ok == (old(mainQueue) != [])
      ensures ok ==> got == old(mainQueue)[0] && mainQueue == old(mainQueue)[1..]
      ensures !ok ==> got == item && mainQueue == old(mainQueue)
      ensures Step(Run([], old(Value())), Take) == Run(if ok then [got] else [], Value())
    {
      if mainQueue == [] {
        return false, item;
      }
      got := mainQueue[0];
      mainQueue := mainQueue[1..];
      return true, got;
    }
  }
}
