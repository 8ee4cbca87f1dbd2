/**
  A task runner that queues tasks to run later, in the order they were pushed.

  Its state is two FIFO queues (tasks waiting for Execute(), and executed
  tasks waiting for their post-execute step), an exclusively owned framerate
  lock that keeps the render loop awake while work is queued, and a hook that
  asks the environment to call RunDeferredTasks() at some later time.
 */
module Runner {
  import opened TaskLog

  class DeferredTaskRunner {
    /** Tasks pushed and not yet executed, oldest first (`deferred_tasks_`). */
    var deferred: seq<TaskId>
    /** Tasks executed and waiting for their post-execute step, oldest first
        (`post_execute_tasks_`). */
    var postExecute: seq<TaskId>
    /** Whether the single framerate lock is held (`framelock_` is non-null). */
    var lockHeld: bool
    /** How many framerate locks this runner has acquired, and released. */
    var lockAcquisitions: nat
    var lockReleases: nat
    /** How many times RequestServicingOfTaskQueue() has been called. */
    var servicingRequests: nat
    /** Everything the runner has run so far, in the order it ran it. */
    var log: seq<Event>
    /** Every task ever pushed, in push order. */
    ghost var submitted: seq<TaskId>

    /** The runner's invariant. Every pushed task is executed exactly once and
        in push order: what was executed followed by what still waits is what
        was pushed. Every executed task gets its post-execute step exactly once
        and in execution order. The lock is held exactly while some task is
        pending, and at most one lock is ever held at a time. */
    ghost predicate Valid()
      reads this
    {
      && Accounted(log, deferred, postExecute, submitted)
      && (|deferred| + |postExecute| > 0 <==> lockHeld)
      && lockAcquisitions == lockReleases + (if lockHeld then 1 else 0)
    }

    /** A new runner has nothing queued and holds no lock. */
    constructor ()
      ensures Valid()
      ensures deferred == [] && postExecute == [] && log == [] && submitted == []
      ensures !lockHeld && lockAcquisitions == 0 && lockReleases == 0
      ensures servicingRequests == 0
      ensures NumPendingTasks() == 0
    {
      deferred := [];
      postExecute := [];
      lockHeld := false;
      lockAcquisitions := 0;
      lockReleases := 0;
      servicingRequests := 0;
      log := [];
      submitted := [];
    }

    /** The number of tasks still to be finished: pushed tasks whose
        post-execute step has not run yet. None are pending exactly when every
        pushed task has finished both phases, and the lock is held exactly
        while some task is pending. */
    function NumPendingTasks(): (n: int)
      reads this
      ensures Valid() ==> n == |submitted| - |Completed(log, PostExecute)|
      ensures Valid() ==> (n == 0 <==> Completed(log, PostExecute) == submitted)
      ensures Valid() ==> (n > 0 <==> lockHeld)
    {
      |deferred| + |postExecute|
    }

    /** The hook a concrete runner provides to have RunDeferredTasks() called
        later; here it only records that a request was made. */
    method RequestServicingOfTaskQueue()
      modifies this`servicingRequests
      ensures servicingRequests == old(servicingRequests) + 1
    {
      servicingRequests := servicingRequests + 1;
    }

    /** Queues `t` behind every task already queued, makes sure the framerate
        lock is held, and asks for the queue to be serviced. */
    method PushTask(t: TaskId)
      requires Valid()
      modifies this
      ensures Valid()
      ensures deferred == old(deferred) + [t]
      ensures submitted == old(submitted) + [t]
      ensures postExecute == old(postExecute) && log == old(log)
      ensures NumPendingTasks() == old(NumPendingTasks()) + 1
      ensures lockHeld
      ensures lockAcquisitions == old(lockAcquisitions) + (if old(lockHeld) then 0 else 1)
      ensures lockReleases == old(lockReleases)
      ensures servicingRequests == old(servicingRequests) + 1
    {
      if !lockHeld {
        lockHeld := true;
        lockAcquisitions := lockAcquisitions + 1;
      }
      deferred := deferred + [t];
      submitted := submitted + [t];
      RequestServicingOfTaskQueue();
    }

    /** Executes every queued task, in the order received, handing each on to
        the post-execute queue. */
    method RunDeferredTasks()
      requires Valid()
      modifies this
      ensures Valid()
      ensures deferred == []
      ensures postExecute == old(postExecute) + old(deferred)
      ensures log == old(log) + Events(Execute, old(deferred))
      ensures NumPendingTasks() == old(NumPendingTasks())
      ensures lockHeld == old(lockHeld)
      ensures lockAcquisitions == old(lockAcquisitions) && lockReleases == old(lockReleases)
      ensures servicingRequests == old(servicingRequests) && submitted == old(submitted)
    {
      ghost var done: seq<TaskId> := [];
      while deferred != []
        invariant old(deferred) == done + deferred
        invariant postExecute == old(postExecute) + done
        invariant log == old(log) + Events(Execute, done)
        invariant lockHeld == old(lockHeld)
        invariant lockAcquisitions == old(lockAcquisitions) && lockReleases == old(lockReleases)
        invariant servicingRequests == old(servicingRequests) && submitted == old(submitted)
        decreases |deferred|
      {
        var t := deferred[0];
        log := log + [Event(Execute, t)];
        postExecute := postExecute + [t];
        deferred := deferred[1..];
        EventsAppend(Execute, done, [t]);
        done := done + [t];
      }
      assert done == old(deferred);
      ExecutingAllKeepsAccount(old(log), old(deferred), old(postExecute), submitted);
    }

    /** Runs the post-execute step of every executed task, in execution order,
        and then releases the framerate lock if no task remains. */
    method ServiceMainThreadTasks()
      requires Valid()
      modifies this
      ensures Valid()
      ensures deferred == old(deferred) && postExecute == []
      ensures log == old(log) + Events(PostExecute, old(postExecute))
      ensures lockHeld <==> NumPendingTasks() > 0
      ensures lockAcquisitions == old(lockAcquisitions)
      ensures lockReleases == old(lockReleases) + (if old(lockHeld) && deferred == [] then 1 else 0)
      ensures servicingRequests == old(servicingRequests) && submitted == old(submitted)
      ensures old(NumPendingTasks()) == 0 ==> log == old(log) && lockReleases == old(lockReleases)
    {
      ghost var done: seq<TaskId> := [];
      while postExecute != []
        invariant old(postExecute) == done + postExecute
        invariant log == old(log) + Events(PostExecute, done)
        invariant deferred == old(deferred) && lockHeld == old(lockHeld)
        invariant lockAcquisitions == old(lockAcquisitions) && lockReleases == old(lockReleases)
        invariant servicingRequests == old(servicingRequests) && submitted == old(submitted)
        decreases |postExecute|
      {
        var t := postExecute[0];
        log := log + [Event(PostExecute, t)];
        postExecute := postExecute[1..];
        EventsAppend(PostExecute, done, [t]);
        done := done + [t];
      }
      assert done == old(postExecute);
      PostExecutingAllKeepsAccount(old(log), old(deferred), old(postExecute), submitted);
      if NumPendingTasks() == 0 && lockHeld {
        lockHeld := false;
        lockReleases := lockReleases + 1;
      }
    }
  }

  /** Two tasks pushed onto a new runner, then one round of servicing: both
      are executed in push order before either post-execute step runs, and
      afterwards nothing is pending and the lock is released. */
  method TwoTaskRound(a: TaskId, b: TaskId)
    returns (log: seq<Event>, pendingAtStart: int, pendingAfterPush: int,
             pendingAtEnd: int, held: bool)
    ensures log == [Event(Execute, a), Event(Execute, b),
                    Event(PostExecute, a), Event(PostExecute, b)]
    ensures pendingAtStart == 0 && pendingAfterPush == 2 && pendingAtEnd == 0
    ensures !held
  {
    var r := new DeferredTaskRunner();
    pendingAtStart := r.NumPendingTasks();
    r.PushTask(a);
    r.PushTask(b);
    assert r.deferred == [a, b] && r.postExecute == [] && r.log == [];
    pendingAfterPush := r.NumPendingTasks();
    r.RunDeferredTasks();
    assert r.postExecute == [a, b];
    assert r.log == [Event(Execute, a), Event(Execute, b)];
    r.ServiceMainThreadTasks();
    assert r.log == [Event(Execute, a), Event(Execute, b)] + Events(PostExecute, [a, b]);
    log := r.log;
    pendingAtEnd := r.NumPendingTasks();
    held := r.lockHeld;
  }
}
