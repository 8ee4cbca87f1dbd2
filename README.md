# DeferredTaskRunner, modelled in Dafny

This project models `ink::DeferredTaskRunner` from
`engine/processing/runner/deferred_task_runner.h`. The runner is a
sequential scheduler. Callers push tasks. The runner queues them and asks
its environment, through the pure virtual `RequestServicingOfTaskQueue()`,
to call `RunDeferredTasks()` later. While work is queued it holds a
framerate lock so that the render loop does not idle. It releases the lock
in `ServiceMainThreadTasks()` once no tasks remain.

The model has two modules.

- `TaskLog` (`task_log.dfy`) holds the value-level vocabulary. A task is an
  opaque `TaskId`. Running a task appends an `Event(phase, task)` to an
  execution log, with `phase` either `Execute` or `PostExecute`.
  `Completed(log, p)` reads off which tasks finished phase `p`, in order.
  `Events(p, ws)` is the log produced by running phase `p` of `ws` in
  order. `Accounted` is the queue bookkeeping. It says that the tasks
  executed so far, followed by the `deferred` queue, are exactly the tasks
  pushed. It also says that the tasks post-executed so far, followed by the
  `postExecute` queue, are exactly the tasks executed. Sequence equality
  makes this mean "each pushed task exactly once, in push order". The
  lemmas show that draining either queue keeps this bookkeeping.
- `Runner` (`deferred_task_runner.dfy`) holds the class
  `DeferredTaskRunner`. Its fields are the two queues `deferred` and
  `postExecute` (for `deferred_tasks_` and `post_execute_tasks_`),
  `lockHeld` (for `framelock_ != nullptr`), acquisition and release
  counters for the lock, a `servicingRequests` counter for the hook, and
  the execution `log`. A ghost `submitted` records every push. `Valid()`
  is the class invariant: the bookkeeping above holds, the lock is held
  exactly when some task is pending, and acquisitions exceed releases by exactly
  one while the lock is held and by zero otherwise, so at most one lock
  exists at a time.

The method bodies in `deferred_task_runner.cc` are not followed by this
model. The bodies modelled here are a reading of the header's declarations,
its doc comments and its two queue fields:

- `PushTask` acquires the lock if none is held, appends the task to
  `deferred_tasks_`, and calls `RequestServicingOfTaskQueue()` once.
- `RunDeferredTasks` is a drain loop. It takes the front of
  `deferred_tasks_`, executes it, and moves its wrapper to the back of
  `post_execute_tasks_`.
- `ServiceMainThreadTasks` is a drain loop over `post_execute_tasks_`. It
  runs each wrapper's post-execute step. Then, if `NumPendingTasks() == 0`,
  it resets `framelock_`.

The hand-off between the two queues and the guarded acquisition are
interpretations of the header, not code it contains. The header's comment
at lines 50-51 reads as one hook call per queued task, and the model
follows it. Calling the hook only on each empty-to-non-empty transition
would be an alternative; the model does not take it.

## Model

| member | source | states |
|---|---|---|
| `Runner.DeferredTaskRunner.constructor` | engine/processing/runner/deferred_task_runner.h:36-37 | a new runner has both queues empty, no lock held, no request issued, an empty log and `NumPendingTasks() == 0`, and satisfies the invariant |
| `Runner.DeferredTaskRunner.NumPendingTasks` | engine/processing/runner/deferred_task_runner.h:41-43 | under the invariant, the pending count is the number of pushed tasks whose post-execute step has not run yet; it is zero exactly when every pushed task has finished both phases; the lock is held if and only if the count is positive; as a function it changes no state |
| `Runner.DeferredTaskRunner.PushTask` | engine/processing/runner/deferred_task_runner.h:29-39 | the task goes to the back of `deferred` and earlier tasks keep their order; the pending count rises by exactly one; afterwards the lock is held, with a new acquisition only if none was held; exactly one servicing request is issued; the log and the post-execute queue are unchanged; the invariant is kept |
| `Runner.DeferredTaskRunner.RequestServicingOfTaskQueue` | engine/processing/runner/deferred_task_runner.h:50-52 | the hook records exactly one more request and changes nothing else |
| `Runner.DeferredTaskRunner.RunDeferredTasks` | engine/processing/runner/deferred_task_runner.h:45-47 | the log grows by exactly one `Execute` entry per queued task, in the order received; each executed task moves to the back of the post-execute queue; the deferred queue ends empty; the pending count, the lock and the counters are unchanged; the invariant is kept, so no task runs twice |
| `Runner.DeferredTaskRunner.ServiceMainThreadTasks` | engine/processing/runner/deferred_task_runner.h:32-33 | the log grows by one `PostExecute` entry per waiting task, in execution order; the post-execute queue ends empty and the deferred queue is untouched; afterwards the lock is held exactly when tasks are pending, so zero pending means released; a release is counted only when a held lock was dropped; servicing a runner with nothing pending leaves the log and the release count unchanged; the invariant, with the lock held exactly while tasks are pending, is kept |
| `Runner.TwoTaskRound` | engine/processing/runner/deferred_task_runner.h:29-47 | pushing `a` then `b` onto a new runner, running the deferred tasks and servicing gives the log `Execute a, Execute b, PostExecute a, PostExecute b`; the pending count goes 0, then 2, then 0; the lock ends released |
| `TaskLog.Completed` | engine/processing/runner/deferred_task_runner.h:45-47 | reads off, in log order, the tasks that finished one phase; its contract bounds their number by the log's length, and the lemmas below give its membership and append laws |
| `TaskLog.CompletedMembers` | engine/processing/runner/deferred_task_runner.h:45-47 | a task is among those that finished a phase if and only if the log has an entry for that task in that phase |
| `TaskLog.Events` | engine/processing/runner/deferred_task_runner.h:45-47 | running a phase of a queue yields one entry per queued task, entry `i` being task `i` in that phase |
| `TaskLog.CompletedAppend` | engine/processing/runner/deferred_task_runner.h:45-47 | reading a phase off two logs in a row is reading it off each log and concatenating |
| `TaskLog.CompletedEvents` | engine/processing/runner/deferred_task_runner.h:45-47 | running one phase of a queue completes exactly that queue, in order, in that phase and nothing in the other phase |
| `TaskLog.EventsAppend` | engine/processing/runner/deferred_task_runner.h:45-47 | running a phase of two queues in a row logs the same as running it of their concatenation |
| `TaskLog.ExecutingAllKeepsAccount` | engine/processing/runner/deferred_task_runner.h:45-55 | executing the whole deferred queue in order and moving it to the post-execute queue keeps every pushed task accounted for exactly once |
| `TaskLog.PostExecutingAllKeepsAccount` | engine/processing/runner/deferred_task_runner.h:32-55 | running the post-execute step of the whole post-execute queue in order keeps every task accounted for exactly once and empties that queue |
| `TaskLog.FinishedInPushOrder` | engine/processing/runner/deferred_task_runner.h:45-47 | under the bookkeeping, the executed tasks are the oldest pushed ones in push order, the post-executed tasks likewise, and no more tasks are post-executed than executed |

## Left out

- `frame_state_` and the `FrameState` constructor argument: the frame-state subsystem and `FramerateLock` internals (framerate, lock name) are external. The lock is a held flag with acquisition and release counters.
- What a task does inside `Execute()` and its post-execute step: `Task` and `TaskWrapper` come from `task_runner.h`, which is not part of this model. A wrapper is modelled by the id of the task it wraps, and running a phase appends a log entry.
- Reentrant pushes from inside a running task: tasks are opaque, so the model never lets a task call `PushTask` while a queue drains.
- Failure of a task during a drain: the header gives no error path, so every task runs to completion.
- The mechanism behind `RequestServicingOfTaskQueue()` in concrete subclasses (timers, event-loop wake-ups, posting across threads): it is pure virtual here and is modelled as a counter.
- Thread safety: the class has no synchronisation, and the model is sequential.
- `unique_ptr`/`shared_ptr` ownership and move semantics, beyond "at most one lock" and "each queued task in exactly one queue slot".
- The `ITaskRunner` base interface and the `dependencies.h` service wiring, which are not part of this model.
- Runner.DeferredTaskRunner.NumPendingTasks: computes the sum of the two queue sizes as an unbounded integer and does not model narrowing `size_t` to `int`, because the queues never approach that size in practice.
