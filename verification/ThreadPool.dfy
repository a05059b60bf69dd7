/** The worker pool of tools/thread_pool.hpp, as a state machine whose steps are
    the critical sections of enqueue, of the worker loop and of the destructor.
    A wait on the condition variable is a step that is disabled until its predicate
    holds; module ThreadPoolWaits adds sleeping and notification, of which this
    machine is the projection. */
module ThreadPool {

  datatype Worker<T> = Idle | Running(task: T) | Exited

  /** The shared fields, and the history of every task. */
  datatype Pool<T> = Pool(
    tasks: seq<T>, stop: bool, workers: seq<Worker<T>>,
    enqueued: seq<T>, started: seq<T>, discarded: seq<T>)

  datatype Action<T> =
    | Enqueue(task: T)
    | Take(w: nat)     // a worker's critical section, once its wait is over
    | Finish(w: nat)   // the task returns
    | Destroy

  ghost predicate Enabled<T>(p: Pool<T>, a: Action<T>) {
    match a
    case Enqueue(_) => true
    case Take(w) => w < |p.workers| && p.workers[w].Idle? && (p.stop || p.tasks != [])
    case Finish(w) => w < |p.workers| && p.workers[w].Running?
    case Destroy => true
  }

  ghost function Apply<T>(p: Pool<T>, a: Action<T>): Pool<T>
    requires Enabled(p, a)
  {
    match a
    case Enqueue(task) =>
      if p.stop then p   // throws
      else p.(tasks := p.tasks + [task], enqueued := p.enqueued + [task])
    case Take(w) =>
      if p.stop && p.tasks == [] then p.(workers := p.workers[w := Exited])
      else p.(workers := p.workers[w := Running(p.tasks[0])], tasks := p.tasks[1..],
              started := p.started + [p.tasks[0]])
    case Finish(w) => p.(workers := p.workers[w := Idle])
    case Destroy => p.(stop := true, tasks := [], discarded := p.discarded + p.tasks)
  }

  ghost predicate Initial<T>(p: Pool<T>) {
    && p.tasks == p.enqueued == p.started == p.discarded == [] && !p.stop
    && forall w :: 0 <= w < |p.workers| ==> p.workers[w].Idle?
  }

  ghost predicate Trace<T>(ps: seq<Pool<T>>, actions: seq<Action<T>>) {
    && |ps| == |actions| + 1
    && forall i :: 0 <= i < |actions| ==> Enabled(ps[i], actions[i]) && ps[i + 1] == Apply(ps[i], actions[i])
  }

  /** Started tasks, then waiting ones, then discarded ones are exactly the tasks
      that enqueue accepted, in the order it accepted them; a stopped pool has
      nothing waiting and no worker's task is unaccounted for. */
  ghost predicate Conserved<T>(p: Pool<T>) {
    && p.enqueued == p.started + p.tasks + p.discarded
    && (if p.stop then p.tasks == [] else p.discarded == [])
    && forall w :: 0 <= w < |p.workers| && p.workers[w].Running? ==> p.workers[w].task in p.started
  }

  lemma ApplyConserves<T>(p: Pool<T>, a: Action<T>)
    requires Enabled(p, a) && Conserved(p)
    ensures Conserved(Apply(p, a))
  {
    var q := Apply(p, a);
    match a
    case Enqueue(task) =>
      assert p.discarded == [] ==> p.started + (p.tasks + [task]) + p.discarded == p.started + p.tasks + p.discarded + [task];
    case Take(w) =>
      if p.tasks != [] {
        assert p.tasks == [p.tasks[0]] + p.tasks[1..];
        assert p.started + p.tasks == p.started + [p.tasks[0]] + p.tasks[1..];
      }
    case Finish(_) =>
    case Destroy =>
      assert p.started + p.tasks + p.discarded == p.started + [] + (p.discarded + p.tasks);
  }

  /** Main result 1: over every interleaving, every task starts at most once and
      in the order of enqueueing, and none is lost. */
  lemma {:induction false} EveryTraceConserves<T>(ps: seq<Pool<T>>, actions: seq<Action<T>>, i: nat)
    requires Trace(ps, actions) && Initial(ps[0]) && i < |ps|
    ensures Conserved(ps[i]) && ps[i].started <= ps[i].enqueued
  {
    if i > 0 {
      EveryTraceConserves(ps, actions, i - 1);
      ApplyConserves(ps[i - 1], actions[i - 1]);
      assert ps[i - 1 + 1] == Apply(ps[i - 1], actions[i - 1]);
    }
  }

  // ----- After the destructor has set stop -----

  lemma {:induction false} StopIsForever<T>(ps: seq<Pool<T>>, actions: seq<Action<T>>, i: nat, j: nat)
    requires Trace(ps, actions) && i <= j < |ps| && Conserved(ps[i]) && ps[i].stop
    ensures Conserved(ps[j]) && ps[j].stop
    ensures ps[j].started == ps[i].started && ps[j].enqueued == ps[i].enqueued
    ensures |ps[j].workers| == |ps[i].workers|
  {
    if i < j {
      StopIsForever(ps, actions, i, j - 1);
      ApplyConserves(ps[j - 1], actions[j - 1]);
      assert ps[j - 1 + 1] == Apply(ps[j - 1], actions[j - 1]);
    }
  }

  /** How many more steps the workers can take once the pool has stopped. */
  function Remaining<T>(ws: seq<Worker<T>>): nat {
    if ws == [] then 0
    else (if ws[0].Running? then 2 else if ws[0].Idle? then 1 else 0) + Remaining(ws[1..])
  }

  lemma {:induction false} RemainingUpdate<T>(ws: seq<Worker<T>>, k: nat, x: Worker<T>)
    requires k < |ws|
    ensures Remaining(ws[k := x]) == Remaining(ws) - Remaining([ws[k]]) + Remaining([x])
  {
    if k == 0 {
      assert ws[0 := x] == [x] + ws[1..];
    } else {
      assert ws[k := x][1..] == ws[1..][k - 1 := x];
      RemainingUpdate(ws[1..], k - 1, x);
    }
  }

  lemma {:induction false} NoneRemaining<T>(ws: seq<Worker<T>>)
    ensures Remaining(ws) == 0 <==> forall w :: 0 <= w < |ws| ==> ws[w].Exited?
  {
    if ws != [] {
      NoneRemaining(ws[1..]);
      assert (forall w :: 0 <= w < |ws| ==> ws[w].Exited?) <==>
             ws[0].Exited? && forall w :: 0 <= w < |ws[1..]| ==> ws[1..][w].Exited?;
    }
  }

  /** Every step of a worker uses up one of the remaining steps. */
  lemma WorkerProgress<T>(p: Pool<T>, a: Action<T>)
    requires Enabled(p, a) && Conserved(p) && p.stop && (a.Take? || a.Finish?)
    ensures Remaining(Apply(p, a).workers) == Remaining(p.workers) - 1
  {
    RemainingUpdate(p.workers, a.w, Apply(p, a).workers[a.w]);
    assert forall x: Worker<T> :: Remaining([x]) == if x.Running? then 2 else if x.Idle? then 1 else 0;
  }

  predicate ByWorker<T>(a: Action<T>) { a.Take? || a.Finish? }

  /** The steps of workers among all that happens: an enqueue may still be refused,
      and a second call may set stop again, at any moment. */
  function WorkerSteps<T>(actions: seq<Action<T>>): nat {
    if actions == [] then 0 else (if ByWorker(actions[0]) then 1 else 0) + WorkerSteps(actions[1..])
  }

  /** Main result 2: over every interleaving after stop is set no further task starts,
      and every step of a worker uses up one of those that remained; so there are at
      most that many, and just then have all workers exited and do the joins return. */
  lemma {:induction false} ShutdownTerminates<T>(ps: seq<Pool<T>>, actions: seq<Action<T>>)
    requires Trace(ps, actions) && Conserved(ps[0]) && ps[0].stop
    ensures WorkerSteps(actions) + Remaining(ps[|actions|].workers) == Remaining(ps[0].workers)
    ensures ps[|actions|].started == ps[0].started
    ensures WorkerSteps(actions) == Remaining(ps[0].workers) <==>
            forall w :: 0 <= w < |ps[|actions|].workers| ==> ps[|actions|].workers[w].Exited?
    decreases |actions|
  {
    StopIsForever(ps, actions, 0, |actions|);
    NoneRemaining(ps[|actions|].workers);
    if actions != [] {
      assert ps[0 + 1] == Apply(ps[0], actions[0]);
      ApplyConserves(ps[0], actions[0]);
      if ByWorker(actions[0]) { WorkerProgress(ps[0], actions[0]); }
      ShutdownTerminates(ps[1..], actions[1..]);
      assert ps[1..][|actions[1..]|] == ps[|actions|];
    }
  }

  /** The step that a worker which has not exited waits for. */
  function Move<T>(p: Pool<T>, w: nat): Action<T>
    requires w < |p.workers|
  {
    if p.workers[w].Idle? then Take(w) else Finish(w)
  }

  /** After stop, what the others do never takes a worker's step away: until it makes
      that step itself, the step stays possible. */
  lemma {:induction false} NoWorkerIsStuck<T>(ps: seq<Pool<T>>, actions: seq<Action<T>>, i: nat, j: nat, w: nat)
    requires Trace(ps, actions) && i <= j < |ps| && ps[i].stop && Conserved(ps[i])
    requires w < |ps[i].workers| && !ps[i].workers[w].Exited?
    requires forall k :: i <= k < j ==> actions[k] != Take(w) && actions[k] != Finish(w)
    ensures |ps[j].workers| == |ps[i].workers| && ps[j].workers[w] == ps[i].workers[w]
    ensures Enabled(ps[j], Move(ps[j], w))
  {
    StopIsForever(ps, actions, i, j);
    if i < j {
      NoWorkerIsStuck(ps, actions, i, j - 1, w);
      assert ps[j - 1 + 1] == Apply(ps[j - 1], actions[j - 1]);
    }
  }

  /** And from every stopped pool the workers can all exit. */
  lemma {:induction false} ShutdownCanFinish<T>(p: Pool<T>) returns (ps: seq<Pool<T>>, actions: seq<Action<T>>)
    requires Conserved(p) && p.stop
    ensures Trace(ps, actions) && ps[0] == p && |actions| == WorkerSteps(actions) == Remaining(p.workers)
    ensures |ps[|actions|].workers| == |p.workers|
    ensures forall w :: 0 <= w < |p.workers| ==> ps[|actions|].workers[w].Exited?
    decreases Remaining(p.workers)
  {
    NoneRemaining(p.workers);
    if Remaining(p.workers) == 0 {
      ps, actions := [p], [];
    } else {
      var w :| 0 <= w < |p.workers| && !p.workers[w].Exited?;
      var a := Move(p, w);
      var q := Apply(p, a);
      WorkerProgress(p, a);
      ApplyConserves(p, a);
      var qs, rest := ShutdownCanFinish(q);
      ps, actions := [p] + qs, [a] + rest;
      forall i | 0 <= i < |actions| ensures Enabled(ps[i], actions[i]) && ps[i + 1] == Apply(ps[i], actions[i]) {
        if i > 0 { assert ps[i] == qs[i - 1] && ps[i + 1] == qs[i - 1 + 1] && actions[i] == rest[i - 1]; }
      }
      assert actions[1..] == rest && ps[|actions|] == qs[|rest|];
    }
  }

  // ----- The critical sections themselves -----

  datatype Next<T> = Work(task: T) | Quit

  /** The shared object: each method is one critical section, and is exactly one step
      of the state machine, whose history the ghost field keeps. */
  class Shared<T> {
    var tasks: seq<T>
    var stop: bool
    ghost var p: Pool<T>

    ghost predicate Valid()
      reads this
    {
      Conserved(p) && tasks == p.tasks && stop == p.stop
    }

    constructor (threads: nat)
      ensures Valid() && Initial(p) && |p.workers| == threads && tasks == [] && !stop
    {
      tasks, stop := [], false;
      p := Pool([], false, seq(threads, i => Idle), [], [], []);
    }

    /** enqueue; ok is false where the source throws. */
    method Enqueue(task: T) returns (ok: bool)
      requires Valid()
      modifies this
      ensures Valid() && Enabled(old(p), Action.Enqueue(task)) && p == Apply(old(p), Action.Enqueue(task))
      ensures ok == !old(stop) && stop == old(stop) && tasks == if ok then old(tasks) + [task] else old(tasks)
    {
      ApplyConserves(p, Action.Enqueue(task));
      p := Apply(p, Action.Enqueue(task));
      if stop {
        return false;
      }
      tasks := tasks + [task];
      return true;
    }

    /** The section of worker w, entered when its wait predicate holds. */
    method Take(ghost w: nat) returns (next: Next<T>)
      requires Valid() && (stop || tasks != []) && w < |p.workers| && p.workers[w].Idle?
      modifies this
      ensures Valid() && Enabled(old(p), Action.Take(w)) && p == Apply(old(p), Action.Take(w))
      ensures next == if old(stop) && old(tasks) == [] then Quit else Work(old(tasks)[0])
      ensures p.workers[w] == (if next.Quit? then Exited else Running(next.task)) && stop == old(stop)
    {
      ApplyConserves(p, Action.Take(w));
      p := Apply(p, Action.Take(w));
      if stop && tasks == [] {
        return Quit;
      }
      next := Work(tasks[0]);
      tasks := tasks[1..];
    }

    /** The destructor's section. */
    method Shutdown()
      requires Valid()
      modifies this
      ensures Valid() && p == Apply(old(p), Destroy) && stop && tasks == []
    {
      ApplyConserves(p, Destroy);
      p := Apply(p, Destroy);
      stop := true;
      tasks := [];
    }
  }
}
