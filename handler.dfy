/** `WorkerHandler` (lib/index.js:82-171): one execution unit's lifecycle,
    its local buffer of tasks submitted before the unit is ready, and its map
    of in-flight tasks. The unit itself is an abstract message sink: posting a
    `task` message appends to `outbox`; the unit's `ready`, `task:result`,
    `error` and `exit` events are the methods OnReady, OnResult, OnError and
    OnExit. Every method is proved to follow its step function in HandlerSpec. */
module Handler {
  import opened Tasks
  import opened HandlerSpec

  class WorkerHandler<T> {
    var status: Status
    var queue: seq<Task<T>>
    var processing: map<nat, Task<T>>
    var methods: Option<seq<string>>
    /** The `task` messages posted to the execution unit, oldest first. */
    var outbox: seq<TaskMessage<T>>
    /** Where the deferreds of the handled tasks are settled. */
    const log: SettlementLog<T>

    ghost predicate Valid()
      reads this
    {
      Wf(status, queue, processing, methods)
    }

    /** The handler and the settlement log as one value. */
    ghost function State(): HandlerState<T>
      reads this, log
    {
      HandlerState(status, queue, processing, methods, outbox, log.settled)
    }

    ghost function Held(): set<nat>
      reads this
    {
      HeldIds(queue, processing)
    }

    /** The `active` getter. */
    function Active(): nat
      reads this
    {
      ActiveCount(queue, processing)
    }

    /** The pool's idleness test: `status <= Ready && !active`. */
    predicate Idle()
      reads this
    {
      MayIdle(status) && Active() == 0
    }

    /** The pool's replacement test: `status >= Terminating`. */
    predicate Retired()
      reads this
    {
      Retiring(status)
    }

    /** What a pool slot needs of its handler: well formed, holding at most
        one task, and holding none once terminated. */
    ghost predicate Fit()
      reads this
    {
      Valid() && Active() <= 1 && (status == Terminated ==> Held() == {})
    }

    /** A new handler for a unit that has been asked to start. */
    constructor (log: SettlementLog<T>)
      ensures Valid() && this.log == log
      ensures status == Starting && queue == [] && processing == map[] && methods == None && outbox == []
    {
      this.log := log;
      status := Starting;
      queue := [];
      processing := map[];
      methods := None;
      outbox := [];
    }

    /** The unit's listeners: route one message or event to its reaction. A
        handler fit for a pool slot stays fit. */
    method Handle(e: Event<T>)
      requires Valid() && Accepts(State(), e)
      modifies this, log
      ensures Valid()
      ensures State() == React(old(State()), e)
      ensures old(Fit()) ==> Fit()
    {
      ghost var start, fit := State(), Fit();
      match e {
        case ReadyMsg(announced) =>
          OnReady(announced);
        case ResultMsg(id, succeeded, payload) =>
          OnResult(id, succeeded, payload);
        case ErrorEvent(error) =>
          OnError(error);
        case ExitEvent(code) =>
          OnExit(code);
      }
      if fit {
        ReactLoad(start, e);
      }
    }

    /** `exec(task)`: forward the task when the unit is ready, else buffer it. */
    method Exec(t: Task<T>)
      requires Valid() && t.id !in Held()
      modifies this, log
      ensures Valid()
      ensures State() == ExecStep(old(State()), t)
    {
      if status == Ready {
        ProcessTask(t);
      } else {
        queue := queue + [t];
        IdsAppend(old(queue), t);
      }
    }

    /** `_processTask(task)`: reject a method the unit did not announce, or
        record the task as in flight and post its `task` message. */
    method ProcessTask(t: Task<T>)
      requires Valid() && methods.Some? && t.id !in Held()
      modifies this, log
      ensures Valid()
      ensures State() == ProcessStep(old(State()), t)
    {
      if t.name !in methods.value {
        log.Settle(t.id, Rejected(InvalidMethod(t.name)));
        return;
      }
      processing := processing[t.id := t];
      outbox := outbox + [MessageOf(t)];
    }

    /** The `ready` message: store the announced methods and drain the local
        queue, head first, through `_processTask`. */
    method OnReady(announced: seq<string>)
      requires Valid()
      modifies this, log
      ensures Valid()
      ensures State() == ReadyStep(old(State()), announced)
    {
      ghost var start := old(State()).(status := Ready, methods := Some(announced), queue := []);
      status := Ready;
      methods := Some(announced);
      while queue != []
        invariant Valid() && status == Ready && methods == Some(announced)
        invariant Drain(State().(queue := []), queue) == Drain(start, old(queue))
        decreases |queue|
      {
        var t := queue[0];
        queue := queue[1..];
        ghost var before := State();
        ProcessTask(t);
        assert State().(queue := []) == ProcessStep(before.(queue := []), t);
      }
    }

    /** The `task:result` message for in-flight task `id`: resolve it with the
        value on success, reject it with the error otherwise. A result for an
        id that is not in flight would make the source throw, hence the
        precondition. */
    method OnResult(id: nat, succeeded: bool, payload: T)
      requires Valid() && id in processing
      modifies this, log
      ensures Valid()
      ensures State() == ResultStep(old(State()), id, succeeded, payload)
    {
      processing := processing - {id};
      if succeeded {
        log.Settle(id, Resolved(payload));
      } else {
        log.Settle(id, Rejected(TaskFailed(payload)));
      }
    }

    /** `_handleWorkerError` as intended: become Terminated, reject every
        in-flight and every buffered task with `reason`, then empty both
        collections. The source's first loop (lib/index.js:154) iterates the
        Map's `[id, task]` entries and throws on the first one; see
        TeardownAsWritten in HandlerSpec. */
    method Teardown(reason: Reason<T>)
      requires Valid()
      modifies this, log
      ensures Valid()
      ensures State() == TeardownStep(old(State()), reason)
    {
      status := Terminated;
      RejectInFlight(reason);
      RejectBuffered(old(log.settled), reason);
      processing := map[];
      queue := [];
    }

    /** The first loop of `_handleWorkerError`: reject every in-flight task. */
    method RejectInFlight(reason: Reason<T>)
      modifies log
      ensures log.settled == RejectAll(old(log.settled), processing.Keys, reason)
    {
      var pending := processing.Keys;
      while pending != {}
        invariant pending <= processing.Keys
        invariant log.settled == RejectAll(old(log.settled), processing.Keys - pending, reason)
        decreases pending
      {
        var id :| id in pending;
        RejectAllStep(old(log.settled), processing.Keys - pending, id, reason);
        log.Settle(id, Rejected(reason));
        pending := pending - {id};
        assert processing.Keys - pending == (processing.Keys - (pending + {id})) + {id};
      }
      assert processing.Keys - pending == processing.Keys;
    }

    /** The second loop of `_handleWorkerError`: reject every buffered task,
        after the in-flight ones were rejected on top of `base`. */
    method RejectBuffered(ghost base: map<nat, Settlement<T>>, reason: Reason<T>)
      requires log.settled == RejectAll(base, processing.Keys, reason)
      modifies log
      ensures log.settled == RejectAll(base, Held(), reason)
    {
      assert queue[..0] == [];
      for k := 0 to |queue|
        invariant log.settled == RejectAll(base, HeldIds(queue[..k], processing), reason)
      {
        RejectAllStep(base, HeldIds(queue[..k], processing), queue[k].id, reason);
        log.Settle(queue[k].id, Rejected(reason));
        assert queue[..k + 1] == queue[..k] + [queue[k]];
        IdsAppend(queue[..k], queue[k]);
        assert HeldIds(queue[..k + 1], processing) == HeldIds(queue[..k], processing) + {queue[k].id};
      }
      assert queue[..|queue|] == queue;
    }

    /** The unit's `error` event. */
    method OnError(err: T)
      requires Valid()
      modifies this, log
      ensures Valid()
      ensures State() == TeardownStep(old(State()), WorkerError(err))
    {
      Teardown(WorkerError(err));
    }

    /** The unit's `exit` event, whatever the code. */
    method OnExit(code: int)
      requires Valid()
      modifies this, log
      ensures Valid()
      ensures State() == TeardownStep(old(State()), WorkerExited(code))
    {
      Teardown(WorkerExited(code));
    }
  }
}
