/**
  The observable side of running deferred tasks.

  A task is opaque: all the model sees of it is an id, and all it sees of
  running it is an entry in an execution log. A task runs in two phases, first
  its Execute() and later its post-execute step, so a log entry records the
  phase together with the task.
 */
module TaskLog {

  /** An opaque unit of work, identified by the caller's id for it. */
  type TaskId = nat

  /** The two phases a queued task goes through. */
  datatype Phase = Execute | PostExecute

  /** One entry of the execution log: `task` has finished phase `phase`. */
  datatype Event = Event(phase: Phase, task: TaskId)

  /** The tasks that finished phase `p` in `log`, in the order they did. */
  function Completed(log: seq<Event>, p: Phase): (r: seq<TaskId>)
    ensures |r| <= |log|
  {
    if log == [] then []
    else
      var rest := Completed(log[1..], p);
      if log[0].phase == p then [log[0].task] + rest else rest
  }

  /** A task is among those that finished phase `p` exactly when the log
      has an entry saying so. */
  lemma {:induction false} CompletedMembers(log: seq<Event>, p: Phase, t: TaskId)
    ensures t in Completed(log, p) <==> Event(p, t) in log
  {
    if log != [] {
      CompletedMembers(log[1..], p, t);
      assert Event(p, t) in log <==> log[0] == Event(p, t) || Event(p, t) in log[1..];
    }
  }

  /** The log entries produced by running phase `p` of `ws`, one after another. */
  function Events(p: Phase, ws: seq<TaskId>): (r: seq<Event>)
    ensures |r| == |ws|
    ensures forall i :: 0 <= i < |ws| ==> r[i] == Event(p, ws[i])
  {
    if ws == [] then [] else [Event(p, ws[0])] + Events(p, ws[1..])
  }

  /** Reading a phase off a log distributes over appending logs. */
  lemma {:induction false} CompletedAppend(a: seq<Event>, b: seq<Event>, p: Phase)
    ensures Completed(a + b, p) == Completed(a, p) + Completed(b, p)
  {
    if a == [] {
      assert a + b == b;
    } else {
      assert (a + b)[0] == a[0];
      assert (a + b)[1..] == a[1..] + b;
      CompletedAppend(a[1..], b, p);
    }
  }

  /** Running phase `p` of `ws` completes exactly `ws` in phase `p`, in order,
      and nothing in the other phase. */
  lemma {:induction false} CompletedEvents(ws: seq<TaskId>, p: Phase, q: Phase)
    ensures Completed(Events(p, ws), q) == if p == q then ws else []
  {
    if ws != [] {
      var es := Events(p, ws);
      assert es[1..] == Events(p, ws[1..]);
      CompletedEvents(ws[1..], p, q);
      if p == q {
        assert ws == [ws[0]] + ws[1..];
      }
    }
  }

  /** Running phase `p` of `ws` and then of `vs` is running it of `ws + vs`. */
  lemma EventsAppend(p: Phase, ws: seq<TaskId>, vs: seq<TaskId>)
    ensures Events(p, ws + vs) == Events(p, ws) + Events(p, vs)
  {
  }

  /** The bookkeeping of a log together with the two queues: `submitted` is
      what executed followed by what waits for execution, and what executed
      is what finished post-execution followed by what waits for that. */
  predicate Accounted(log: seq<Event>, deferred: seq<TaskId>, postExecute: seq<TaskId>,
                      submitted: seq<TaskId>)
  {
    && Completed(log, Execute) + deferred == submitted
    && Completed(log, PostExecute) + postExecute == Completed(log, Execute)
  }

  /** Executing every waiting task in order and handing each on to the
      post-execute queue keeps the bookkeeping, and leaves nothing waiting
      for execution. */
  lemma {:induction false} ExecutingAllKeepsAccount(log: seq<Event>, deferred: seq<TaskId>,
                                                    postExecute: seq<TaskId>,
                                                    submitted: seq<TaskId>)
    requires Accounted(log, deferred, postExecute, submitted)
    ensures Accounted(log + Events(Execute, deferred), [], postExecute + deferred, submitted)
  {
    var es := Events(Execute, deferred);
    var executed, finished := Completed(log, Execute), Completed(log, PostExecute);
    assert Completed(log + es, Execute) == executed + deferred by {
      CompletedAppend(log, es, Execute);
      CompletedEvents(deferred, Execute, Execute);
    }
    assert Completed(log + es, PostExecute) == finished by {
      CompletedAppend(log, es, PostExecute);
      CompletedEvents(deferred, Execute, PostExecute);
      assert finished + [] == finished;
    }
    assert (executed + deferred) + [] == submitted;
    assert finished + (postExecute + deferred) == executed + deferred;
  }

  /** Running the post-execute step of every executed task in order keeps the
      bookkeeping, and leaves the post-execute queue empty. */
  lemma {:induction false} PostExecutingAllKeepsAccount(log: seq<Event>, deferred: seq<TaskId>,
                                                        postExecute: seq<TaskId>,
                                                        submitted: seq<TaskId>)
    requires Accounted(log, deferred, postExecute, submitted)
    ensures Accounted(log + Events(PostExecute, postExecute), deferred, [], submitted)
  {
    var es := Events(PostExecute, postExecute);
    var executed, finished := Completed(log, Execute), Completed(log, PostExecute);
    assert Completed(log + es, Execute) == executed by {
      CompletedAppend(log, es, Execute);
      CompletedEvents(postExecute, PostExecute, Execute);
      assert executed + [] == executed;
    }
    assert Completed(log + es, PostExecute) == finished + postExecute by {
      CompletedAppend(log, es, PostExecute);
      CompletedEvents(postExecute, PostExecute, PostExecute);
    }
    assert (finished + postExecute) + [] == executed;
  }

  /** Under the bookkeeping, tasks finish each phase in push order: the tasks
      executed so far are the oldest pushed ones, and so are the tasks whose
      post-execute step has run. */
  lemma FinishedInPushOrder(log: seq<Event>, deferred: seq<TaskId>, postExecute: seq<TaskId>,
                            submitted: seq<TaskId>)
    requires Accounted(log, deferred, postExecute, submitted)
    ensures Completed(log, Execute) == submitted[..|Completed(log, Execute)|]
    ensures Completed(log, PostExecute) == submitted[..|Completed(log, PostExecute)|]
    ensures |Completed(log, PostExecute)| <= |Completed(log, Execute)| <= |submitted|
  {
  }
}
