/** The bookkeeping of one `WorkerHandler` (lib/index.js:82-171) as values:
    a snapshot of the handler together with the settlement log, one function
    per reaction of the handler, and the facts the pool relies on about each
    reaction. The class in module Handler is proved to follow these functions. */
module HandlerSpec {
  import opened Tasks

  /** `WorkerStatus`; `Terminating` exists but is never assigned. */
  datatype Status = Starting | Ready | Terminating | Terminated

  /** The numeric value of each status, which the pool compares with `<=` and `>=`. */
  function Code(s: Status): nat {
    match s
    case Starting => 0
    case Ready => 1
    case Terminating => 2
    case Terminated => 3
  }

  /** `status <= WorkerStatus.Ready`: a handler that may be reused when it holds no task. */
  predicate MayIdle(s: Status)
    ensures MayIdle(s) <==> s == Starting || s == Ready
  {
    Code(s) <= Code(Ready)
  }

  /** `status >= WorkerStatus.Terminating`: a handler whose slot is to be refilled. */
  predicate Retiring(s: Status)
    ensures Retiring(s) <==> s == Terminating || s == Terminated
  {
    Code(s) >= Code(Terminating)
  }

  /** The statuses are numbered in their lifecycle order, and the two
      comparisons split them into the live and the dead ones. */
  lemma StatusClasses(s: Status)
    ensures Code(Starting) < Code(Ready) < Code(Terminating) < Code(Terminated)
    ensures MayIdle(s) != Retiring(s)
  {
  }

  /** A handler's fields (status, local queue, processing map, announced
      methods), the task messages it has posted, and the settlement log. */
  datatype HandlerState<T> = HandlerState(
    status: Status,
    queue: seq<Task<T>>,
    processing: map<nat, Task<T>>,
    methods: Option<seq<string>>,
    outbox: seq<TaskMessage<T>>,
    settled: map<nat, Settlement<T>>)

  /** The ids a handler holds: buffered in its local queue or in flight. */
  function HeldIds<T>(queue: seq<Task<T>>, processing: map<nat, Task<T>>): set<nat> {
    Ids(queue) + processing.Keys
  }

  function Held<T>(s: HandlerState<T>): set<nat> {
    HeldIds(s.queue, s.processing)
  }

  /** The `active` getter, `processing.size + queue.length`: zero exactly
      when the handler holds no task. */
  function ActiveCount<T>(queue: seq<Task<T>>, processing: map<nat, Task<T>>): (r: nat)
    ensures r == 0 <==> queue == [] && processing == map[]
  {
    |processing| + |queue|
  }

  function Active<T>(s: HandlerState<T>): nat {
    ActiveCount(s.queue, s.processing)
  }

  /** A handler as its constructor leaves it, over the log `settled`:
      starting, with nothing buffered, nothing in flight and no methods. */
  function Initial<T>(settled: map<nat, Settlement<T>>): (r: HandlerState<T>)
    ensures r.status == Starting && Active(r) == 0 && Held(r) == {} && r.settled == settled
  {
    HandlerState(Starting, [], map[], None, [], settled)
  }

  /** The handler's own invariant: `Terminating` is never assigned, a ready
      handler knows its methods, each in-flight task is stored under its own id,
      and no id is held twice. */
  ghost predicate Wf<T>(status: Status, queue: seq<Task<T>>, processing: map<nat, Task<T>>, methods: Option<seq<string>>) {
    && status != Terminating
    && (status == Ready ==> methods.Some?)
    && (forall id :: id in processing ==> processing[id].id == id)
    && DistinctIds(queue)
    && (forall id :: id in processing ==> id !in Ids(queue))
  }

  ghost predicate WfState<T>(s: HandlerState<T>) {
    Wf(s.status, s.queue, s.processing, s.methods)
  }

  /** What the pool needs of every reaction from `s` to `r` that also received
      the tasks `extra`: no task appears from nowhere, every task that leaves
      the handler is settled, no settlement is overwritten, a held task is
      never settled. */
  ghost predicate Conserves<T>(s: HandlerState<T>, r: HandlerState<T>, extra: set<nat>) {
    && Held(r) <= Held(s) + extra
    && Held(r) + r.settled.Keys == Held(s) + s.settled.Keys + extra
    && Extends(s.settled, r.settled)
    && (Apart(Held(s), s.settled.Keys) && Apart(extra, s.settled.Keys) ==> Apart(Held(r), r.settled.Keys))
  }

  /** `_processTask`: a task naming a method the unit did not announce is
      rejected and nothing is posted; otherwise it is stored in `processing`
      under its id and exactly one `task` message is posted for it. */
  function ProcessStep<T>(s: HandlerState<T>, t: Task<T>): (r: HandlerState<T>)
    requires s.methods.Some?
    ensures r.status == s.status && r.queue == s.queue && r.methods == s.methods
  {
    if t.name in s.methods.value then
      s.(processing := s.processing[t.id := t], outbox := s.outbox + [MessageOf(t)])
    else
      s.(settled := SettleOnce(s.settled, t.id, Rejected(InvalidMethod(t.name))))
  }

  /** The handler's `exec`: forward when ready, otherwise buffer at the tail. */
  function ExecStep<T>(s: HandlerState<T>, t: Task<T>): (r: HandlerState<T>)
    requires s.status == Ready ==> s.methods.Some?
    ensures r.status == s.status && r.methods == s.methods
    ensures t.id in Held(r) || t.id in r.settled
  {
    if s.status == Ready then
      ProcessStep(s, t)
    else
      IdsAppend(s.queue, t);
      s.(queue := s.queue + [t])
  }

  /** `_processTask` applied to the tasks of `q`, head first. */
  function Drain<T>(s: HandlerState<T>, q: seq<Task<T>>): (r: HandlerState<T>)
    requires s.methods.Some?
    ensures r.status == s.status && r.methods == s.methods && r.queue == s.queue
    decreases |q|
  {
    if q == [] then s else Drain(ProcessStep(s, q[0]), q[1..])
  }

  /** The `ready` message: become Ready, store the methods, then hand every
      buffered task, in queue order, to `_processTask`. */
  function ReadyStep<T>(s: HandlerState<T>, announced: seq<string>): (r: HandlerState<T>)
    ensures r.status == Ready && r.methods == Some(announced) && r.queue == []
  {
    Drain(s.(status := Ready, methods := Some(announced), queue := []), s.queue)
  }

  /** The `task:result` message for an in-flight `id`. */
  function ResultStep<T>(s: HandlerState<T>, id: nat, succeeded: bool, payload: T): (r: HandlerState<T>)
    ensures id !in r.processing && id in r.settled
    ensures r.status == s.status && r.queue == s.queue && r.methods == s.methods
  {
    s.(processing := s.processing - {id},
       settled := SettleOnce(s.settled, id, if succeeded then Resolved(payload) else Rejected(TaskFailed(payload))))
  }

  /** The `error` and `exit` reactions as the source evidently intends them:
      become Terminated, reject every in-flight and every buffered task with
      one reason, and empty both collections. */
  function TeardownStep<T>(s: HandlerState<T>, reason: Reason<T>): (r: HandlerState<T>)
    ensures r.status == Terminated && r.queue == [] && r.processing == map[]
    ensures r.settled.Keys == s.settled.Keys + Held(s)
  {
    s.(status := Terminated, queue := [], processing := map[],
       settled := RejectAll(s.settled, Held(s), reason))
  }

  /** The tasks of `q` whose method is announced, in queue order. */
  function Accepted<T>(methods: seq<string>, q: seq<Task<T>>): (r: seq<Task<T>>)
    ensures |r| <= |q|
    decreases |q|
  {
    if q == [] then []
    else if q[0].name in methods then [q[0]] + Accepted(methods, q[1..])
    else Accepted(methods, q[1..])
  }

  /** The filter keeps exactly the tasks of `q` whose method is announced. */
  lemma {:induction false} AcceptedMembers<T>(methods: seq<string>, q: seq<Task<T>>)
    ensures forall x :: x in Accepted(methods, q) <==> x in q && x.name in methods
    decreases |q|
  {
    if q != [] {
      AcceptedMembers(methods, q[1..]);
      assert forall x :: x in q <==> x == q[0] || x in q[1..];
    }
  }

  /** The `task` messages for the tasks of `q`, in the same order. */
  function Posts<T>(q: seq<Task<T>>): (r: seq<TaskMessage<T>>)
    ensures |r| == |q|
    ensures forall k :: 0 <= k < |q| ==> r[k] == MessageOf(q[k])
    decreases |q|
  {
    if q == [] then [] else [MessageOf(q[0])] + Posts(q[1..])
  }

  /** Filtering a queue keeps the relative order of its tasks: what was
      buffered earlier is forwarded earlier. */
  lemma {:induction false} AcceptedAppend<T>(methods: seq<string>, q1: seq<Task<T>>, q2: seq<Task<T>>)
    ensures Accepted(methods, q1 + q2) == Accepted(methods, q1) + Accepted(methods, q2)
    decreases |q1|
  {
    if q1 == [] {
      assert q1 + q2 == q2;
    } else {
      var q := q1 + q2;
      assert q[0] == q1[0] && q[1..] == q1[1..] + q2;
      AcceptedAppend(methods, q1[1..], q2);
      if q1[0].name in methods {
        assert Accepted(methods, q) == [q1[0]] + Accepted(methods, q1[1..] + q2);
        assert Accepted(methods, q1) == [q1[0]] + Accepted(methods, q1[1..]);
      } else {
        assert Accepted(methods, q) == Accepted(methods, q1[1..] + q2);
      }
    }
  }

  /** Draining posts one message per accepted task, in queue order, after
      everything posted before. */
  lemma {:induction false} DrainOutbox<T>(s: HandlerState<T>, q: seq<Task<T>>)
    requires s.methods.Some?
    ensures Drain(s, q).outbox == s.outbox + Posts(Accepted(s.methods.value, q))
    decreases |q|
  {
    if q != [] {
      var s' := ProcessStep(s, q[0]);
      DrainOutbox(s', q[1..]);
      if q[0].name in s.methods.value {
        assert Posts(Accepted(s.methods.value, q)) == [MessageOf(q[0])] + Posts(Accepted(s.methods.value, q[1..]));
      }
    }
  }

  /** The fate of each drained task: an announced method leaves it in
      `processing`, any other is rejected with InvalidMethod. */
  lemma {:induction false} DrainFate<T>(s: HandlerState<T>, q: seq<Task<T>>)
    requires s.methods.Some? && DistinctIds(q)
    requires Apart(Ids(q), s.processing.Keys) && Apart(Ids(q), s.settled.Keys)
    ensures forall k :: 0 <= k < |q| && q[k].name in s.methods.value ==>
      q[k].id in Drain(s, q).processing && Drain(s, q).processing[q[k].id] == q[k]
    ensures forall k :: 0 <= k < |q| && q[k].name !in s.methods.value ==>
      q[k].id in Drain(s, q).settled && Drain(s, q).settled[q[k].id] == Rejected(InvalidMethod(q[k].name))
    decreases |q|
  {
    if q != [] {
      var s' := ProcessStep(s, q[0]);
      DrainFate(s', q[1..]);
      DrainKeeps(s', q[1..], q[0].id);
      forall k | 0 < k < |q| ensures q[k] == q[1..][k - 1] {
      }
    }
  }

  /** An id outside the drained tasks keeps its processing entry and its settlement. */
  lemma {:induction false} DrainKeeps<T>(s: HandlerState<T>, q: seq<Task<T>>, id: nat)
    requires s.methods.Some? && id !in Ids(q)
    ensures id in s.processing ==> id in Drain(s, q).processing && Drain(s, q).processing[id] == s.processing[id]
    ensures id in s.settled ==> id in Drain(s, q).settled && Drain(s, q).settled[id] == s.settled[id]
    decreases |q|
  {
    if q != [] {
      DrainKeeps(ProcessStep(s, q[0]), q[1..], id);
    }
  }

  /** One `_processTask` call moves the task into `processing` or into the
      log and touches nothing else. */
  lemma ProcessConserves<T>(s: HandlerState<T>, t: Task<T>)
    requires s.methods.Some? && t.id !in Held(s)
    requires forall id :: id in s.processing ==> s.processing[id].id == id
    ensures forall id :: id in ProcessStep(s, t).processing ==> ProcessStep(s, t).processing[id].id == id
    ensures Held(ProcessStep(s, t)) <= Held(s) + {t.id}
    ensures Held(ProcessStep(s, t)) + ProcessStep(s, t).settled.Keys == Held(s) + s.settled.Keys + {t.id}
    ensures Extends(s.settled, ProcessStep(s, t).settled)
    ensures Apart(Held(s), s.settled.Keys) && t.id !in s.settled ==> Apart(Held(ProcessStep(s, t)), ProcessStep(s, t).settled.Keys)
  {
    if t.name in s.methods.value {
      AdmitConserves(s, t);
    } else {
      RejectConserves(s, t);
    }
  }

  /** `_processTask` of an announced method: the task joins `processing`
      under its id and its one `task` message is posted. */
  lemma AdmitConserves<T>(s: HandlerState<T>, t: Task<T>)
    requires s.methods.Some? && t.name in s.methods.value
    ensures Held(ProcessStep(s, t)) == Held(s) + {t.id} && ProcessStep(s, t).settled == s.settled
    ensures ProcessStep(s, t).processing.Keys == s.processing.Keys + {t.id}
    ensures t.id in ProcessStep(s, t).processing && ProcessStep(s, t).processing[t.id] == t
    ensures ProcessStep(s, t).outbox == s.outbox + [MessageOf(t)]
  {
  }

  /** `_processTask` of an unannounced method: the task is rejected with
      InvalidMethod at once, unless already settled, and nothing is posted. */
  lemma RejectConserves<T>(s: HandlerState<T>, t: Task<T>)
    requires s.methods.Some? && t.name !in s.methods.value
    ensures Held(ProcessStep(s, t)) == Held(s) && ProcessStep(s, t).settled.Keys == s.settled.Keys + {t.id}
    ensures ProcessStep(s, t).processing == s.processing
    ensures ProcessStep(s, t).outbox == s.outbox
    ensures ProcessStep(s, t).settled[t.id] == if t.id in s.settled then s.settled[t.id] else Rejected(InvalidMethod(t.name))
  {
  }

  /** One `_processTask` call adds at most one in-flight task. */
  lemma ProcessLoad<T>(s: HandlerState<T>, t: Task<T>)
    requires s.methods.Some?
    ensures |ProcessStep(s, t).processing| <= |s.processing| + 1
  {
  }

  /** Draining keeps the local queue and adds at most one in-flight task per drained task. */
  lemma {:induction false} DrainLoad<T>(s: HandlerState<T>, q: seq<Task<T>>)
    requires s.methods.Some?
    ensures Drain(s, q).queue == s.queue && Drain(s, q).status == s.status
    ensures |Drain(s, q).processing| <= |s.processing| + |q|
    decreases |q|
  {
    if q != [] {
      ProcessLoad(s, q[0]);
      DrainLoad(ProcessStep(s, q[0]), q[1..]);
    }
  }

  /** Draining moves every drained task into `processing` or into the log and
      touches nothing else. */
  lemma {:induction false} DrainConserves<T>(s: HandlerState<T>, q: seq<Task<T>>)
    requires s.methods.Some? && s.queue == []
    requires forall id :: id in s.processing ==> s.processing[id].id == id
    requires DistinctIds(q) && Apart(Ids(q), s.processing.Keys)
    ensures Drain(s, q).status == s.status && Drain(s, q).methods == s.methods && Drain(s, q).queue == []
    ensures forall id :: id in Drain(s, q).processing ==> Drain(s, q).processing[id].id == id
    ensures Held(Drain(s, q)) <= Held(s) + Ids(q)
    ensures Held(Drain(s, q)) + Drain(s, q).settled.Keys == Held(s) + s.settled.Keys + Ids(q)
    ensures Extends(s.settled, Drain(s, q).settled)
    ensures Apart(Held(s), s.settled.Keys) && Apart(Ids(q), s.settled.Keys) ==> Apart(Held(Drain(s, q)), Drain(s, q).settled.Keys)
    decreases |q|
  {
    if q != [] {
      var t := q[0];
      var s' := ProcessStep(s, t);
      assert Ids(q) == {t.id} + Ids(q[1..]);
      ProcessConserves(s, t);
      DrainConserves(s', q[1..]);
      var r := Drain(s', q[1..]);
      SetsCompose(Held(s), s.settled.Keys, Held(s'), s'.settled.Keys, Held(r), r.settled.Keys, {t.id}, Ids(q[1..]));
    }
  }

  /** Two conserving steps, the first receiving `a` and the second `b`, make one. */
  lemma SetsCompose(h0: set<nat>, s0: set<nat>, h1: set<nat>, s1: set<nat>, h2: set<nat>, s2: set<nat>, a: set<nat>, b: set<nat>)
    requires h1 <= h0 + a && h1 + s1 == h0 + s0 + a
    requires h2 <= h1 + b && h2 + s2 == h1 + s1 + b
    requires Apart(h0, s0) && Apart(a, s0) ==> Apart(h1, s1)
    requires Apart(h1, s1) && Apart(b, s1) ==> Apart(h2, s2)
    requires Apart(b, h0) && Apart(b, a)
    ensures h2 <= h0 + (a + b) && h2 + s2 == h0 + s0 + (a + b)
    ensures Apart(h0, s0) && Apart(a + b, s0) ==> Apart(h2, s2)
  {
  }

  /** `exec` keeps the handler well formed and conserves its tasks. */
  lemma ExecConserves<T>(s: HandlerState<T>, t: Task<T>)
    requires WfState(s) && t.id !in Held(s)
    ensures WfState(ExecStep(s, t))
    ensures ExecStep(s, t).status == s.status && ExecStep(s, t).methods == s.methods
    ensures Conserves(s, ExecStep(s, t), {t.id})
  {
    if s.status == Ready {
      ForwardConserves(s, t);
    } else {
      BufferConserves(s, t);
    }
  }

  /** `exec` on an idle handler: the task becomes its only one and the log is
      unchanged, or, for a method the ready unit did not announce, the task is
      rejected at once and the handler still holds nothing. */
  lemma ExecIdle<T>(s: HandlerState<T>, t: Task<T>)
    requires WfState(s) && MayIdle(s.status) && Active(s) == 0 && t.id !in s.settled
    ensures WfState(ExecStep(s, t)) && ExecStep(s, t).status == s.status && Active(ExecStep(s, t)) <= 1
    ensures || (Held(ExecStep(s, t)) == {t.id} && ExecStep(s, t).settled == s.settled)
            || (Held(ExecStep(s, t)) == {} && ExecStep(s, t).settled == s.settled[t.id := Rejected(InvalidMethod(t.name))])
  {
    assert s.queue == [] && s.processing == map[];
    var r := ExecStep(s, t);
    if s.status != Ready {
      assert r.queue == [t] && [t][1..] == [];
      assert Ids(r.queue) == {t.id};
    } else if t.name in s.methods.value {
      assert r.processing == map[t.id := t] && r.queue == [];
      assert Held(r) == {t.id};
    } else {
      assert r.queue == [] && r.processing == map[];
    }
  }

  /** `exec` on a ready handler is one `_processTask` call. */
  lemma ForwardConserves<T>(s: HandlerState<T>, t: Task<T>)
    requires WfState(s) && t.id !in Held(s) && s.status == Ready
    ensures WfState(ProcessStep(s, t))
    ensures Conserves(s, ProcessStep(s, t), {t.id})
  {
    ProcessConserves(s, t);
  }

  /** `exec` on a handler that is not ready buffers the task at the tail. */
  lemma BufferConserves<T>(s: HandlerState<T>, t: Task<T>)
    requires WfState(s) && t.id !in Held(s)
    ensures WfState(s.(queue := s.queue + [t]))
    ensures Conserves(s, s.(queue := s.queue + [t]), {t.id})
  {
    IdsAppend(s.queue, t);
  }

  /** `ready` leaves the local queue empty, keeps the handler well formed and
      conserves its tasks. */
  lemma ReadyConserves<T>(s: HandlerState<T>, announced: seq<string>)
    requires WfState(s)
    ensures WfState(ReadyStep(s, announced))
    ensures ReadyStep(s, announced).status == Ready && ReadyStep(s, announced).methods == Some(announced)
    ensures ReadyStep(s, announced).queue == []
    ensures Conserves(s, ReadyStep(s, announced), {})
  {
    var start := s.(status := Ready, methods := Some(announced), queue := []);
    DrainConserves(start, s.queue);
    ReadyFinish(s, start, Drain(start, s.queue));
  }

  /** The drained state, in the terms of ReadyStep's input. */
  lemma ReadyFinish<T>(s: HandlerState<T>, start: HandlerState<T>, r: HandlerState<T>)
    requires WfState(s) && start.methods.Some?
    requires start == s.(status := Ready, methods := Some(start.methods.value), queue := [])
    requires r.status == Ready && r.methods == start.methods && r.queue == []
    requires forall id :: id in r.processing ==> r.processing[id].id == id
    requires Held(r) <= Held(start) + Ids(s.queue)
    requires Held(r) + r.settled.Keys == Held(start) + start.settled.Keys + Ids(s.queue)
    requires Extends(start.settled, r.settled)
    requires Apart(Held(start), start.settled.Keys) && Apart(Ids(s.queue), start.settled.Keys) ==> Apart(Held(r), r.settled.Keys)
    ensures WfState(r) && Conserves(s, r, {})
  {
    assert Held(start) + Ids(s.queue) == Held(s);
  }

  /** `task:result` removes exactly that id from `processing` and settles it. */
  lemma ResultConserves<T>(s: HandlerState<T>, id: nat, succeeded: bool, payload: T)
    requires WfState(s) && id in s.processing
    ensures WfState(ResultStep(s, id, succeeded, payload))
    ensures ResultStep(s, id, succeeded, payload).status == s.status
    ensures Conserves(s, ResultStep(s, id, succeeded, payload), {})
    ensures id !in s.settled ==>
      ResultStep(s, id, succeeded, payload).settled[id] == if succeeded then Resolved(payload) else Rejected(TaskFailed(payload))
  {
    ResultWf(s, id, succeeded, payload);
    ResultHeld(s, id, succeeded, payload);
  }

  /** A result keeps the handler well formed. */
  lemma ResultWf<T>(s: HandlerState<T>, id: nat, succeeded: bool, payload: T)
    requires WfState(s) && id in s.processing
    ensures WfState(ResultStep(s, id, succeeded, payload))
  {
  }

  /** A result moves its task from the held set to the settled set. */
  lemma ResultHeld<T>(s: HandlerState<T>, id: nat, succeeded: bool, payload: T)
    requires id in s.processing && Apart(Ids(s.queue), s.processing.Keys)
    ensures Conserves(s, ResultStep(s, id, succeeded, payload), {})
  {
    var p := s.processing - {id};
    assert p.Keys == s.processing.Keys - {id};
    SetsRemove(Ids(s.queue), s.processing.Keys, s.settled.Keys, id);
  }

  /** A result lowers the load by one. */
  lemma ResultLoad<T>(s: HandlerState<T>, id: nat, succeeded: bool, payload: T)
    requires id in s.processing
    ensures Active(ResultStep(s, id, succeeded, payload)) == Active(s) - 1
  {
    var p := s.processing - {id};
    assert p.Keys == s.processing.Keys - {id};
    assert |p.Keys| == |s.processing.Keys| - 1;
  }

  /** Moving one in-flight id into the settled set conserves the ids. */
  lemma SetsRemove(q: set<nat>, p: set<nat>, settled: set<nat>, id: nat)
    requires id in p && Apart(q, p)
    ensures q + (p - {id}) <= q + p
    ensures q + (p - {id}) + (settled + {id}) == q + p + settled
    ensures Apart(q + p, settled) ==> Apart(q + (p - {id}), settled + {id})
  {
  }

  /** Teardown rejects every held, not yet settled task with the given reason
      and leaves a well-formed, empty, Terminated handler. */
  lemma TeardownConserves<T>(s: HandlerState<T>, reason: Reason<T>)
    requires WfState(s)
    ensures WfState(TeardownStep(s, reason))
    ensures TeardownStep(s, reason).status == Terminated && Held(TeardownStep(s, reason)) == {}
    ensures Conserves(s, TeardownStep(s, reason), {})
    ensures forall id :: id in Held(s) && id !in s.settled ==> TeardownStep(s, reason).settled[id] == Rejected(reason)
  {
  }

  /** A message or event from the execution unit, as the handler's listeners receive it. */
  datatype Event<T> =
    | ReadyMsg(announced: seq<string>)
    | ResultMsg(id: nat, succeeded: bool, payload: T)
    | ErrorEvent(error: T)
    | ExitEvent(code: int)

  /** A result for a task that is not in flight would make the listener throw. */
  predicate Accepts<T>(s: HandlerState<T>, e: Event<T>) {
    e.ResultMsg? ==> e.id in s.processing
  }

  /** The handler's reaction to one event. */
  function React<T>(s: HandlerState<T>, e: Event<T>): (r: HandlerState<T>)
    requires Accepts(s, e)
    ensures e.ReadyMsg? ==> r.status == Ready && r.queue == []
    ensures e.ResultMsg? ==> e.id !in r.processing && e.id in r.settled
    ensures e.ErrorEvent? || e.ExitEvent? ==> r.status == Terminated && r.queue == [] && r.processing == map[]
  {
    match e
    case ReadyMsg(announced) => ReadyStep(s, announced)
    case ResultMsg(id, succeeded, payload) => ResultStep(s, id, succeeded, payload)
    case ErrorEvent(error) => TeardownStep(s, WorkerError(error))
    case ExitEvent(code) => TeardownStep(s, WorkerExited(code))
  }

  /** No event gives a handler a task, and a result settles its task. */
  lemma ReactConserves<T>(s: HandlerState<T>, e: Event<T>)
    requires WfState(s) && Accepts(s, e)
    ensures WfState(React(s, e)) && Conserves(s, React(s, e), {})
    ensures e.ResultMsg? ==> e.id in React(s, e).settled
  {
    match e
    case ReadyMsg(announced) =>
      ReadyConserves(s, announced);
    case ResultMsg(id, succeeded, payload) =>
      ResultConserves(s, id, succeeded, payload);
    case ErrorEvent(error) =>
      TeardownConserves(s, WorkerError(error));
    case ExitEvent(code) =>
      TeardownConserves(s, WorkerExited(code));
  }

  /** No event adds to a handler's load or leaves a terminated handler
      holding a task: `ready` only moves buffered tasks into flight, a result
      removes one, and a teardown empties the handler. */
  lemma ReactLoad<T>(s: HandlerState<T>, e: Event<T>)
    requires Accepts(s, e)
    requires s.status == Terminated ==> Held(s) == {}
    ensures Active(React(s, e)) <= Active(s)
    ensures React(s, e).status == Terminated ==> Held(React(s, e)) == {}
  {
    match e
    case ReadyMsg(announced) =>
      var start := s.(status := Ready, methods := Some(announced), queue := []);
      DrainLoad(start, s.queue);
    case ResultMsg(id, succeeded, payload) =>
      ResultLoad(s, id, succeeded, payload);
    case ErrorEvent(error) =>
    case ExitEvent(code) =>
  }

  /** An `exit` after an `error` (or any second teardown) changes nothing. */
  lemma TeardownIdempotent<T>(s: HandlerState<T>, first: Reason<T>, second: Reason<T>)
    ensures TeardownStep(TeardownStep(s, first), second) == TeardownStep(s, first)
  {
    var r := TeardownStep(s, first);
    assert Held(r) == {};
    assert RejectAll(r.settled, {}, second) == r.settled;
  }

  /** The outcome of running the error listener as written: the state it
      leaves and whether it threw. */
  datatype Attempt<T> = Attempt(state: HandlerState<T>, threw: bool)

  /** `_handleWorkerError` as written. At lib/index.js:154 `for (let task of
      this.processing)` iterates the Map's `[id, task]` entries, so
      `task.deferred` is undefined and the first `reject` throws a TypeError
      whenever `processing` is non-empty: the status is already Terminated, but
      nothing is rejected and neither collection is cleared. With `processing`
      empty the loop body never runs and the rest of the listener completes. */
  function TeardownAsWritten<T>(s: HandlerState<T>, reason: Reason<T>): (r: Attempt<T>)
    ensures r.state.status == Terminated
    ensures r.threw <==> s.processing != map[]
    ensures r.threw ==> r.state.processing == s.processing && r.state.settled == s.settled
  {
    if |s.processing| == 0 then
      Attempt(s.(status := Terminated, queue := [], settled := RejectAll(s.settled, Ids(s.queue), reason)), false)
    else
      Attempt(s.(status := Terminated), true)
  }

  /** As written, an in-flight task outlives the crash unsettled, in a handler
      whose Terminated status makes the pool discard it on the next dispatch. */
  lemma AsWrittenStrandsInFlight<T>(s: HandlerState<T>, reason: Reason<T>, id: nat)
    requires id in s.processing && id !in s.settled
    ensures TeardownAsWritten(s, reason).threw
    ensures Retiring(TeardownAsWritten(s, reason).state.status)
    ensures id in TeardownAsWritten(s, reason).state.processing
    ensures id !in TeardownAsWritten(s, reason).state.settled
    ensures id in TeardownStep(s, reason).settled && TeardownStep(s, reason).settled[id] == Rejected(reason)
  {
  }

  /** With nothing in flight the code as written does what is intended. */
  lemma AsWrittenAgreesWhenIdle<T>(s: HandlerState<T>, reason: Reason<T>)
    requires |s.processing| == 0
    ensures !TeardownAsWritten(s, reason).threw
    ensures TeardownAsWritten(s, reason).state == TeardownStep(s, reason)
  {
    assert s.processing == map[];
    assert Held(s) == Ids(s.queue);
  }

  /** A concrete crash: one task in flight, unit exits with code 1. As written
      the listener throws and task 0 is never settled; as intended it is
      rejected with the exit reason. */
  lemma AsWrittenCounterexample<T>(arg: T)
    ensures var t := Task(0, "work", [arg]);
            var s := HandlerState(Ready, [], map[0 := t], Some(["work"]), [MessageOf(t)], map[]);
            && TeardownAsWritten(s, WorkerExited(1)).threw
            && 0 !in TeardownAsWritten(s, WorkerExited(1)).state.settled
            && TeardownStep(s, WorkerExited(1)).settled == map[0 := Rejected(WorkerExited(1))]
  {
    var t := Task(0, "work", [arg]);
    var s := HandlerState(Ready, [], map[0 := t], Some(["work"]), [MessageOf(t)], map[]);
    assert Held(s) == {0};
  }

  /** `active` counts exactly the tasks the handler holds. */
  lemma {:induction false} ActiveCountsHeld<T>(s: HandlerState<T>)
    requires WfState(s)
    ensures Active(s) == |Held(s)|
  {
    DistinctCard(s.queue);
    assert |s.processing| == |s.processing.Keys|;
  }

  /** A queue of distinct ids has as many ids as tasks. */
  lemma {:induction false} DistinctCard<T>(q: seq<Task<T>>)
    requires DistinctIds(q)
    ensures |Ids(q)| == |q|
    decreases |q|
  {
    if q != [] {
      DistinctCard(q[1..]);
    }
  }
}
