/** The condition variable of the worker pool in tools/thread_pool.hpp: workers that sleep
    in wait, notifications that are sent after the lock is released and may find nobody
    asleep, and spurious wake-ups.  Every step is a step of the machine in ThreadPool or
    leaves its state alone, and no notification that matters is ever lost. */
module ThreadPoolWaits {
  import opened ThreadPool

  /** The idle workers are awake, about to test the wait's predicate under the lock, or
      asleep.  owed counts the notify_one calls that are still to come, owedAll those of
      notify_all. */
  datatype Room<T> = Room(pool: Pool<T>, awake: set<nat>, asleep: set<nat>, owed: nat, owedAll: nat)

  datatype Event<T> =
    | Enqueues(task: T)    // the critical section of enqueue
    | NotifiesOne(w: nat)  // its notify_one, which wakes w if anybody is asleep
    | Stops                // the critical section of the destructor
    | NotifiesAll          // its notify_all
    | Stirs(w: nat)        // a spurious wake-up
    | Sleeps(w: nat)       // the predicate is false, and wait blocks
    | Takes(w: nat)        // the predicate is true, and the rest of the section runs
    | Finishes(w: nat)     // the task returns

  ghost predicate Waits<T>(p: Pool<T>) { !p.stop && p.tasks == [] }

  ghost predicate Can<T>(r: Room<T>, e: Event<T>) {
    match e
    case Enqueues(_) => true
    case NotifiesOne(w) => r.owed > 0 && (r.asleep == {} || w in r.asleep)
    case Stops => true
    case NotifiesAll => r.owedAll > 0
    case Stirs(w) => w in r.asleep
    case Sleeps(w) => w in r.awake && Waits(r.pool)
    case Takes(w) => w in r.awake && Enabled(r.pool, Take(w))
    case Finishes(w) => Enabled(r.pool, Finish(w))
  }

  ghost function Does<T>(r: Room<T>, e: Event<T>): Room<T>
    requires Can(r, e)
  {
    match e
    case Enqueues(task) => r.(pool := Apply(r.pool, Enqueue(task)), owed := if r.pool.stop then r.owed else r.owed + 1)
    case NotifiesOne(w) =>
      if r.asleep == {} then r.(owed := r.owed - 1)
      else r.(owed := r.owed - 1, awake := r.awake + {w}, asleep := r.asleep - {w})
    case Stops => r.(pool := Apply(r.pool, Destroy), owedAll := r.owedAll + 1)
    case NotifiesAll => r.(owedAll := r.owedAll - 1, awake := r.awake + r.asleep, asleep := {})
    case Stirs(w) => r.(awake := r.awake + {w}, asleep := r.asleep - {w})
    case Sleeps(w) => r.(awake := r.awake - {w}, asleep := r.asleep + {w})
    case Takes(w) => r.(pool := Apply(r.pool, Take(w)), awake := r.awake - {w})
    case Finishes(w) => r.(pool := Apply(r.pool, Finish(w)), awake := r.awake + {w})
  }

  ghost predicate Opens<T>(r: Room<T>) {
    && Initial(r.pool) && r.owed == r.owedAll == 0 && r.asleep == {}
    && forall w :: w in r.awake <==> 0 <= w < |r.pool.workers|
  }

  ghost predicate StepAt<T>(rs: seq<Room<T>>, es: seq<Event<T>>, i: int)
    requires |rs| == |es| + 1 && 0 <= i < |es|
  {
    Can(rs[i], es[i]) && rs[i + 1] == Does(rs[i], es[i])
  }

  ghost predicate Run<T>(rs: seq<Room<T>>, es: seq<Event<T>>) {
    |rs| == |es| + 1 && Opens(rs[0]) && forall i :: 0 <= i < |es| ==> StepAt(rs, es, i)
  }

  // ----- The simpler machine -----

  /** What the pool sees of an event. */
  function Seen<T>(e: Event<T>): seq<Action<T>> {
    match e
    case Enqueues(task) => [Enqueue(task)]
    case Stops => [Destroy]
    case Takes(w) => [Take(w)]
    case Finishes(w) => [Finish(w)]
    case _ => []
  }

  /** Every event is a step of the pool, or none. */
  lemma Projects<T>(r: Room<T>, e: Event<T>)
    requires Can(r, e)
    ensures if Seen(e) == [] then Does(r, e).pool == r.pool
            else Enabled(r.pool, Seen(e)[0]) && Does(r, e).pool == Apply(r.pool, Seen(e)[0])
  {
  }

  // ----- What every run keeps -----

  /** The idle workers are divided between the two sets, and none exits before stop. */
  ghost predicate Divided<T>(r: Room<T>) {
    && r.awake !! r.asleep
    && (forall w :: w in r.awake || w in r.asleep <==> 0 <= w < |r.pool.workers| && r.pool.workers[w].Idle?)
    && (!r.pool.stop ==> forall w :: 0 <= w < |r.pool.workers| ==> !r.pool.workers[w].Exited?)
  }

  /** While anybody sleeps, every waiting task has a notification on its way or an awake
      worker of its own; and stop has its notification on its way, or nobody sleeps. */
  ghost predicate Watched<T>(r: Room<T>) { TasksWatched(r) && StopWatched(r) }

  ghost predicate TasksWatched<T>(r: Room<T>) { r.asleep != {} ==> |r.pool.tasks| <= r.owed + |r.awake| }

  ghost predicate StopWatched<T>(r: Room<T>) { r.pool.stop && r.owedAll == 0 ==> r.asleep == {} }

  ghost predicate Inv<T>(r: Room<T>) { Conserved(r.pool) && Divided(r) && Watched(r) }

  lemma KeepsDivided<T>(r: Room<T>, e: Event<T>)
    requires Can(r, e) && Divided(r)
    ensures Divided(Does(r, e))
  {
  }

  lemma KeepsStopWatched<T>(r: Room<T>, e: Event<T>)
    requires Can(r, e) && StopWatched(r)
    ensures StopWatched(Does(r, e))
  {
  }

  lemma Joins(s: set<nat>, w: nat)
    requires w !in s
    ensures |s + {w}| == |s| + 1
  {
  }

  lemma Leaves(s: set<nat>, w: nat)
    requires w in s
    ensures |s - {w}| == |s| - 1
  {
  }

  lemma WakingWatches<T>(r: Room<T>, w: nat, n: Room<T>)
    requires TasksWatched(r) && Divided(r) && w in r.asleep
    requires n.pool == r.pool && n.awake == r.awake + {w} && n.asleep == r.asleep - {w} && n.owed >= r.owed - 1
    ensures TasksWatched(n)
  {
    Joins(r.awake, w);
  }

  lemma TakingWatches<T>(r: Room<T>, w: nat, n: Room<T>)
    requires TasksWatched(r) && w in r.awake && n.awake == r.awake - {w} && n.asleep == r.asleep && n.owed == r.owed
    requires |n.pool.tasks| == |r.pool.tasks| - 1 || n.pool.tasks == []
    ensures TasksWatched(n)
  {
    Leaves(r.awake, w);
  }

  lemma FinishingWatches<T>(r: Room<T>, w: nat, n: Room<T>)
    requires TasksWatched(r) && w !in r.awake && n.awake == r.awake + {w} && n.asleep == r.asleep && n.owed == r.owed
    requires n.pool.tasks == r.pool.tasks
    ensures TasksWatched(n)
  {
    Joins(r.awake, w);
  }

  lemma KeepsTasksWatched<T>(r: Room<T>, e: Event<T>)
    requires Can(r, e) && Divided(r) && TasksWatched(r)
    ensures TasksWatched(Does(r, e))
  {
    match e
    case NotifiesOne(w) => if r.asleep != {} { WakingWatches(r, w, Does(r, e)); }
    case Stirs(w) => WakingWatches(r, w, Does(r, e));
    case Takes(w) => TakingWatches(r, w, Does(r, e));
    case Finishes(w) => FinishingWatches(r, w, Does(r, e));
    case _ =>
  }

  lemma KeepsConserved<T>(r: Room<T>, e: Event<T>)
    requires Can(r, e) && Conserved(r.pool)
    ensures Conserved(Does(r, e).pool)
  {
    Projects(r, e);
    if Seen(e) != [] { ApplyConserves(r.pool, Seen(e)[0]); }
  }

  lemma {:induction false} EveryRunKeeps<T>(rs: seq<Room<T>>, es: seq<Event<T>>, i: nat)
    requires Run(rs, es) && i < |rs|
    ensures Inv(rs[i])
  {
    if i > 0 {
      EveryRunKeeps(rs, es, i - 1);
      assert StepAt(rs, es, i - 1);
      KeepsConserved(rs[i - 1], es[i - 1]);
      KeepsDivided(rs[i - 1], es[i - 1]);
      KeepsTasksWatched(rs[i - 1], es[i - 1]);
      KeepsStopWatched(rs[i - 1], es[i - 1]);
    }
  }

  /** Main result 1: over every interleaving, once the notifications are out every
      waiting task has an awake worker of its own, or nobody sleeps at all; so with a
      worker in the pool some worker is at work on the queue. */
  lemma NoTaskIsStranded<T>(rs: seq<Room<T>>, es: seq<Event<T>>, i: nat)
    requires Run(rs, es) && i < |rs| && rs[i].owed == 0 && rs[i].pool.tasks != []
    ensures rs[i].asleep == {} || |rs[i].pool.tasks| <= |rs[i].awake|
    ensures |rs[i].pool.workers| > 0 ==>
      exists w :: 0 <= w < |rs[i].pool.workers| && (w in rs[i].awake || rs[i].pool.workers[w].Running?)
  {
    EveryRunKeeps(rs, es, i);
    var r := rs[i];
    assert !r.pool.stop;
    if |r.pool.workers| > 0 {
      if r.asleep == {} {
        assert 0 in r.awake || r.pool.workers[0].Running?;
      } else {
        assert r.awake != {};
        var w :| w in r.awake;
      }
    }
  }

  /** Main result 2: nobody sleeps through stop, and nobody falls asleep after it. */
  lemma NoWorkerSleepsThroughStop<T>(rs: seq<Room<T>>, es: seq<Event<T>>, i: nat)
    requires Run(rs, es) && i < |rs| && rs[i].pool.stop
    ensures rs[i].owedAll == 0 ==> rs[i].asleep == {}
    ensures i < |es| ==> rs[i + 1].pool.stop && rs[i + 1].asleep <= rs[i].asleep
  {
    EveryRunKeeps(rs, es, i);
    if i < |es| {
      assert StepAt(rs, es, i);
    }
  }

  /** So the joins of the destructor never wait for nothing: as long as a worker has not
      exited, it can make a step, or a notify_all is still to come. */
  lemma StoppedWorkersCanMove<T>(rs: seq<Room<T>>, es: seq<Event<T>>, i: nat, w: nat)
    requires Run(rs, es) && i < |rs| && rs[i].pool.stop
    requires w < |rs[i].pool.workers| && !rs[i].pool.workers[w].Exited?
    ensures Can(rs[i], Takes(w)) || Can(rs[i], Finishes(w)) || Can(rs[i], NotifiesAll)
  {
    EveryRunKeeps(rs, es, i);
  }
}
