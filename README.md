# Worker pool model

A Dafny model of the core of a small Node.js worker-thread pool
(`lib/index.js`). A `WorkerPool` keeps a FIFO queue of submitted tasks and at
most `max` `WorkerHandler`s. Each time `_next` runs with a non-empty queue,
`_getWorker` scans the slots in order and stops at the first one that is idle
or retired (terminated, or about to be). An idle handler there gets the head
task; a retired one is first replaced by a fresh handler. If no slot is idle or retired and the pool
is below `max`, a new handler is appended. With an empty queue `_next` does
nothing, so a retired slot is replaced only while work is waiting. `_next`
runs once per submission and once per settled task, through the `.finally`
callback of the task's promise.

A handler buffers tasks until its execution unit announces its methods with a
`ready` message. After that it forwards each task whose method was announced
as a `task` message and keeps it in `processing` until a `task:result` settles
it or the handler is torn down. A task whose method was not announced is
rejected with InvalidMethod and never posted. As intended (see Findings), an
`error` or `exit` event makes the handler Terminated and rejects every task it
holds; as written, that loop throws on the first in-flight task.

Every task's deferred promise (`createDeferred`) is an entry of one shared
settlement log, where the first settlement of an id wins.

Modules:

- `Tasks`: tasks, the messages that carry them, settlement reasons, and the
  settle-once log: the `SettleOnce` and `RejectAll` functions and the
  `SettlementLog` class.
- `HandlerSpec`: the statuses and their numeric ordering, and a handler
  snapshot (`HandlerState`). It has one step function per reaction
  (`ProcessStep`, `ExecStep`, `ReadyStep`, `ResultStep`, `TeardownStep`, and
  `React` for any event), with the lemmas the pool relies on. `Conserves`
  states that no task appears from nowhere, every task that leaves a handler
  is settled, and no settlement is overwritten.
- `Handler`: the class `WorkerHandler`. Each method is proved to move the
  object from `State()` to the matching step function's result.
- `Placement`: on plain values, every id the pool has handed out is in exactly
  one place. That place is the pool's queue, the handler of one slot, or the
  settlement log.
- `Pool`: the class `WorkerPool`. Its invariant `Valid()` keeps the slots
  distinct, and each slot's handler well formed, holding at most one task, and
  holding none once terminated. It also keeps the queue in submission order,
  and `Agrees` between the ghost `place` map, the queue, the slots and the log.

The execution unit is a message sink: `_processTask`'s `postMessage` appends to
the handler's `outbox`. The unit's `message`, `error` and `exit` events are an
`Event` datatype delivered by `WorkerPool.On` to the handler of a slot.
Payloads (arguments, values, errors) are an opaque type parameter.

## Model

| member | source | states |
|---|---|---|
| Tasks.SettleOnce | lib/index.js:173-181 | settling a deferred adds exactly its id; the first settlement is kept and a new id gets the given settlement |
| Tasks.SettleOnceIdempotent | lib/index.js:173-181 | a second resolve or reject of the same deferred changes nothing |
| Tasks.RejectAll | lib/index.js:154-160 | rejecting a set of ids adds exactly those ids, keeps earlier settlements, and gives every new id the one reason |
| Tasks.RejectAllStep | lib/index.js:154-160 | rejecting one more id extends a bulk rejection by exactly that id |
| Tasks.SettlementLog.Settle | lib/index.js:173-181 | the log after `resolve`/`reject` is `SettleOnce` of the log before |
| Tasks.IdsAppend | lib/index.js:34 | pushing a task adds exactly its id, and ids stay distinct exactly when the id is new |
| Tasks.IdsAt | lib/index.js:24 | every task of a queue is found in the queue's id set |
| Tasks.IdsAbove | lib/index.js:31 | a queue whose tasks carry ids above `b` has only ids above `b` |
| HandlerSpec.StatusClasses | lib/index.js:7-12 | the numbers `Code` gives the four statuses (0 to 3) follow the lifecycle order, and every status passes exactly one of the tests `status <= Ready` and `status >= Terminating` |
| HandlerSpec.MayIdle | lib/index.js:58 | the test `status <= WorkerStatus.Ready` holds exactly for Starting and Ready |
| HandlerSpec.Retiring | lib/index.js:61 | the test `status >= WorkerStatus.Terminating` holds exactly for Terminating and Terminated |
| HandlerSpec.ActiveCount | lib/index.js:106-108 | `active` is zero exactly when nothing is buffered and nothing is in flight |
| HandlerSpec.Initial | lib/index.js:83-91 | a handler as constructed is Starting and holds no task |
| HandlerSpec.ExecStep | lib/index.js:110-118 | `exec` keeps status and methods, and afterwards the task is held by the handler or already settled |
| HandlerSpec.Drain | lib/index.js:136-138 | processing the buffered tasks one by one keeps status, methods and local queue |
| HandlerSpec.ReadyStep | lib/index.js:132-138 | after `ready` the handler is Ready, its methods are the announced ones, and its local queue is empty |
| HandlerSpec.ResultStep | lib/index.js:139-148 | after `task:result` the id is no longer in flight and is settled; status, local queue and methods are kept |
| HandlerSpec.TeardownStep | lib/index.js:151-164 | teardown leaves the handler Terminated and empty, and the settled ids are the earlier ones plus every task it held |
| HandlerSpec.React | lib/index.js:131-170 | `ready` makes the handler Ready with an empty local queue, a result settles its id and takes it out of flight, and `error` or `exit` leaves it Terminated and empty |
| HandlerSpec.TeardownAsWritten | lib/index.js:151-164 | the loop as written throws exactly when a task is in flight, and then leaves the in-flight map and the log as they were; the status is Terminated either way |
| HandlerSpec.ProcessStep | lib/index.js:120-129 | `_processTask` changes neither status, local queue nor methods |
| HandlerSpec.AdmitConserves | lib/index.js:124-128 | an announced method puts the task in `processing` under its id, posts exactly its `task` message after the earlier ones, and settles nothing |
| HandlerSpec.RejectConserves | lib/index.js:121-122 | an unannounced method rejects the task with InvalidMethod unless it is already settled, posts nothing, and leaves `processing` as it was |
| HandlerSpec.ProcessConserves | lib/index.js:120-129 | one `_processTask` call moves the task into `processing` or the log, keeps every entry under its own id, and overwrites no settlement |
| HandlerSpec.ProcessLoad | lib/index.js:124 | one `_processTask` call adds at most one in-flight task |
| HandlerSpec.Accepted | lib/index.js:121 | the announced tasks of a queue are at most as many as the queue |
| HandlerSpec.AcceptedMembers | lib/index.js:121 | a task is forwarded exactly when it is in the queue and its method is announced |
| HandlerSpec.AcceptedAppend | lib/index.js:136-138 | filtering keeps relative order: what was buffered earlier is forwarded earlier |
| HandlerSpec.Posts | lib/index.js:127-128 | one `task` message per task, in order, each carrying exactly the task's id, method and args |
| HandlerSpec.DrainOutbox | lib/index.js:136-138 | draining the local queue posts, after everything posted before, one message per announced task in queue order |
| HandlerSpec.DrainFate | lib/index.js:121-124 | each drained task ends in `processing` when its method is announced, and is rejected with InvalidMethod otherwise |
| HandlerSpec.DrainKeeps | lib/index.js:136-138 | an id outside the drained tasks keeps its in-flight entry and its settlement |
| HandlerSpec.DrainLoad | lib/index.js:136-138 | draining keeps status and local queue and adds at most one in-flight task per drained task |
| HandlerSpec.DrainConserves | lib/index.js:136-138 | draining moves every drained task into `processing` or the log and overwrites no settlement |
| HandlerSpec.ExecConserves | lib/index.js:110-118 | `exec` keeps the handler well formed and conserves its tasks plus the new one |
| HandlerSpec.ExecIdle | lib/index.js:110-118 | `exec` on an idle handler leaves it holding just the task, or, for an unannounced method, nothing, with the task rejected |
| HandlerSpec.ForwardConserves | lib/index.js:111-112 | forwarding on a ready handler keeps it well formed and conserves its tasks |
| HandlerSpec.BufferConserves | lib/index.js:113-114 | buffering keeps the handler well formed and conserves its tasks |
| HandlerSpec.ReadyConserves | lib/index.js:132-138 | `ready` makes the handler Ready with the announced methods and an empty local queue, and conserves its tasks |
| HandlerSpec.ReadyFinish | lib/index.js:132-138 | the drained state is well formed and conserves the tasks of the state before `ready` |
| HandlerSpec.ResultConserves | lib/index.js:139-148 | `task:result` keeps the status, conserves tasks, and settles the id with the value on success and with the error otherwise |
| HandlerSpec.ResultWf | lib/index.js:140-141 | removing the finished task keeps the handler well formed |
| HandlerSpec.ResultHeld | lib/index.js:140-147 | the finished task moves from the held set to the settled set |
| HandlerSpec.ResultLoad | lib/index.js:106-108 | a result lowers `active` by exactly one |
| HandlerSpec.TeardownConserves | lib/index.js:151-164 | teardown leaves an empty Terminated handler and rejects every held, unsettled task with the reason |
| HandlerSpec.ReactConserves | lib/index.js:131-170 | no event gives a handler a task, and a result settles its task |
| HandlerSpec.ReactLoad | lib/index.js:131-170 | no event raises `active`, and a terminated handler stays empty |
| HandlerSpec.TeardownIdempotent | lib/index.js:151-170 | an `exit` after an `error`, or any second teardown, changes nothing |
| HandlerSpec.ActiveCountsHeld | lib/index.js:106-108 | `active` is exactly the number of distinct tasks the handler holds |
| HandlerSpec.DistinctCard | lib/index.js:107 | a queue of distinct ids has as many ids as tasks |
| HandlerSpec.AsWrittenStrandsInFlight | lib/index.js:154-156 | as written, teardown with a task in flight throws and leaves that task unsettled in a Terminated handler |
| HandlerSpec.AsWrittenAgreesWhenIdle | lib/index.js:154-164 | with nothing in flight, the code as written does what is intended |
| HandlerSpec.AsWrittenCounterexample | lib/index.js:154-156 | one task in flight and exit code 1: as written task 0 is never settled; as intended it is rejected |
| Handler.WorkerHandler.constructor | lib/index.js:83-104 | a new handler is Starting, with empty queue, no in-flight task and no methods |
| Handler.WorkerHandler.Handle | lib/index.js:101-103 | the listeners route each event to its reaction, the new state is `React` of the old, and a handler fit for a slot stays fit |
| Handler.WorkerHandler.Exec | lib/index.js:110-118 | the new state is `ExecStep` of the old |
| Handler.WorkerHandler.ProcessTask | lib/index.js:120-129 | the new state is `ProcessStep` of the old |
| Handler.WorkerHandler.OnReady | lib/index.js:132-138 | the draining loop leaves the state `ReadyStep` of the old |
| Handler.WorkerHandler.OnResult | lib/index.js:139-148 | the new state is `ResultStep` of the old |
| Handler.WorkerHandler.Teardown | lib/index.js:151-164 | the new state is `TeardownStep` of the old |
| Handler.WorkerHandler.RejectInFlight | lib/index.js:154-156 | every in-flight task is rejected with the reason, and earlier settlements are kept |
| Handler.WorkerHandler.RejectBuffered | lib/index.js:158-160 | every buffered task is rejected on top of the in-flight rejections |
| Handler.WorkerHandler.OnError | lib/index.js:151-164 | an `error` event is a teardown with the error as the reason |
| Handler.WorkerHandler.OnExit | lib/index.js:166-170 | an `exit` event is a teardown with the exit code as the reason |
| Placement.OneHome | lib/index.js:29-51 | an id handed out is in exactly one place: the queue, one slot, or the log |
| Placement.Unsettled | lib/index.js:124 | no task a slot holds is settled |
| Placement.Issue | lib/index.js:31-34 | a new id is nowhere yet, and placing it at the front keeps the agreement |
| Placement.Grow | lib/index.js:70-73 | opening an empty slot keeps the agreement |
| Placement.DispatchAgrees | lib/index.js:46-50 | handing the head task to an empty slot keeps the agreement |
| Placement.SettleAgrees | lib/index.js:131-170 | a handler reaction that receives no task keeps the agreement |
| Placement.Holds | lib/index.js:46-50 | a slot holds only ids handed to it and not yet settled |
| Placement.LoadBound | lib/index.js:58 | slots that each hold at most one task hold at most one task per slot in total |
| Pool.IssueTask | lib/index.js:29-34 | the new task's id is above every queued id and not settled, and the queue stays ordered and in agreement |
| Pool.DispatchTask | lib/index.js:46-50 | shifting the head task to a slot keeps the queue ordered and in agreement |
| Pool.SettleSlot | lib/index.js:131-170 | a handler event keeps the pool's agreement |
| Pool.ConservedSets | lib/index.js:131-170 | a conserving reaction, in the set terms of SettleAgrees |
| Pool.GrowSlot | lib/index.js:70-73 | a new empty slot keeps the agreement |
| Pool.WorkerPool.LoadWithinMax | lib/index.js:53-75 | at most `max` tasks are out of the queue and unsettled at any time |
| Pool.WorkerPool.Free | lib/index.js:58-61 | a slot passes `_getWorker`'s test exactly when it is idle (Starting or Ready and holding nothing) or retired (Terminating or Terminated) |
| Pool.WorkerPool.FirstFree | lib/index.js:55-67 | the lowest slot at or after `k` that is idle or retired, or none |
| Pool.WorkerPool.Target | lib/index.js:53-75 | the slot `_getWorker` serves is the lowest free one, else a new slot below `max`, and none exactly when every slot is busy and the pool is full |
| Pool.WorkerPool.constructor | lib/index.js:15-27 | a new pool has no slots, an empty queue, `_nextId` 0 and an empty log |
| Pool.WorkerPool.Handover | lib/index.js:55-73 | the handler `_getWorker` hands over at a slot is idle, well formed and may accept a task: the idle one already there, or a new Starting one |
| Pool.WorkerPool.GetWorker | lib/index.js:53-75 | returns `Target()`; the handler there is idle and in state `Handover` of that slot, the same object when the slot was idle and a fresh one otherwise; the slots change only at that index (replaced or appended), and not at all when none is found |
| Pool.WorkerPool.Replace | lib/index.js:61-65 | a retired slot gets a fresh idle handler in state `Handover`; no other slot changes |
| Pool.WorkerPool.Append | lib/index.js:69-73 | a fresh idle handler in state `Handover` is pushed as the last slot; the earlier slots are kept |
| Pool.WorkerPool.Next | lib/index.js:40-51 | with an empty queue or no slot found nothing changes; otherwise the head task is shifted, the handler at `Target()` goes from `Handover` to `ExecStep` of the head task, every other slot keeps its handler, and its fields are untouched (the frame names only that handler) |
| Pool.WorkerPool.Host | lib/index.js:50 | the idle handler of the slot goes to `ExecStep` of the task, holding just the task or nothing with the task rejected; every other handler is unchanged |
| Pool.WorkerPool.ExecAt | lib/index.js:50 | `worker.exec(task)` moves that handler to `ExecStep` of its state and changes only it and the log |
| Pool.WorkerPool.Dispatch | lib/index.js:46-50 | the head task leaves the queue, the slot's handler goes to `ExecStep` of the head task, the slots are the same objects, and the pool stays valid |
| Pool.WorkerPool.Enqueue | lib/index.js:29-34 | the new task carries `_nextId`, which then goes up by one, and joins the tail of the queue; the slots and the slot `_getWorker` would serve are unchanged |
| Pool.WorkerPool.Exec | lib/index.js:29-38 | `exec` issues a fresh id and dispatches the head of the extended queue exactly when `_getWorker` finds a slot; that slot's handler goes from `Handover` to `ExecStep` of the head task and no other handler is touched |
| Pool.WorkerPool.OnSettled | lib/index.js:50 | the `.finally` callback of a settled task runs once and `_next` runs again, with the same guarantees as `Next` |
| Pool.WorkerPool.Deliver | lib/index.js:101-103 | the slot's handler reacts by `React` and the slots stay consistent |
| Pool.WorkerPool.HandleAt | lib/index.js:101-103 | a listener changes only its own handler and the log |
| Pool.WorkerPool.On | lib/index.js:131-170 | an event of a slot's unit moves its handler by `React`, keeps the pool valid, and a result newly settles the task, so that its callback becomes due |

## Left out

- The Node.js `Worker` wiring (lib/index.js:94-103), `os.cpus()` (lib/index.js:17), the
  `script` and `limits` options, and the `worker/` and `types/` files are not
  part of this model. The unit is a message sink (the handler's `outbox`) and a
  source of `Event`s, and `max` is a constructor parameter.
- Promises and microtask scheduling: a promise is its entry in the settlement
  log. `.finally(() => this._next())` is the method `OnSettled`, which the
  environment calls once for each settled task. The set of callbacks that
  have run is the environment's, a ghost parameter that `OnSettled` extends;
  the predicate `Due` says which callback may run. The order in which
  callbacks run is not modelled.
- The promise that `.finally` returns (lib/index.js:50) is dropped by the
  source. When the task was rejected, it rejects too and is never handled,
  so Node.js reports an unhandled rejection. The model has no handlers for
  rejections, so it does not capture that report.
- `_nextId++` (lib/index.js:31) works on a JavaScript number. Past 2^53 the
  increment no longer changes the value, and two tasks would share an id.
  The model's ids are unbounded naturals, so every id is fresh.
- `max` is a `nat`. The source compares `workers.length < max` for any
  number (lib/index.js:70). A fractional `max` such as 2.5 allows one slot
  more than its integer part, 3; as a `nat` that is `max` 3. A negative or
  `NaN` `max` allows no new slot; that is `max` 0. An `Infinity` `max`, which
  bounds nothing, has no `nat` counterpart.
- Argument, value and error payloads are opaque. `InvalidMethod` and
  `WorkerExited` stand for the `Error` objects the source builds.
- The task property `method` is called `name`, because `method` is a Dafny
  keyword.
- Message types other than `ready` and `task:result` are ignored by the
  source. They change nothing, so the model has no event for them.
- Handler.WorkerHandler.OnResult: requires the id to be in flight. The source
  would throw on `task.deferred` of an unknown id (lib/index.js:140-144).
- Pool.WorkerPool.On: delivers events only to handlers still in a slot. A
  handler replaced by `_getWorker` is Terminated and holds nothing, and any
  later event changes only that unreachable handler.
- The order in which a `Map` iterates its entries: the in-flight rejections use
  a set of keys, and the final log does not depend on that order.
- `WorkerStatus.Terminating` is never assigned by the source. The handler
  invariant excludes it, so only Terminated handlers are replaced.
- The error and exit listeners of the handler class follow the intended
  teardown, not the throwing loop at lib/index.js:154 (see Findings).

## Findings

| source | as written | input that shows it | evidently intended | confidence | as-written member | corrected member |
|---|---|---|---|---|---|---|
| lib/index.js:154 | `for (let task of this.processing)` iterates the Map's `[id, task]` entries, so `task.deferred` is undefined and the first `reject` throws a TypeError. The status is already Terminated, no in-flight task is rejected, and neither collection is cleared | one task in flight (id 0, method `work`) on a ready handler whose unit exits with code 1 | iterate `this.processing.values()`, so that every in-flight and every buffered task is rejected and both collections are emptied | not executed | HandlerSpec.TeardownAsWritten, HandlerSpec.AsWrittenCounterexample | HandlerSpec.TeardownStep, Handler.WorkerHandler.Teardown |
