/** `WorkerPool` (lib/index.js:14-80): a FIFO queue of submitted tasks, a
    bounded row of handler slots, and the id counter. The pool hands its head
    task to the first free slot each time `_next` runs, which happens once per
    submission and once per settled task (the `.finally` callback). Two ghost
    fields follow the tasks: `hosted[i]` is what the handler of slot `i`
    holds, and `place` says for every id handed out whether it is still in
    the pool's queue or which slot it was handed to (see module Placement). */
module Pool {
  import opened Tasks
  import opened HandlerSpec
  import opened Handler
  import opened Placement

  /** The tasks of a queue are in submission order. */
  ghost predicate Ascending<T>(q: seq<Task<T>>) {
    forall i, j :: 0 <= i < j < |q| ==> q[i].id < q[j].id
  }

  /** What handing task `t` to an idle handler does to the log: nothing,
      when the handler keeps the task, or its rejection, when the ready unit
      did not announce the task's method. */
  ghost predicate Handed<T>(log: map<nat, Settlement<T>>, log': map<nat, Settlement<T>>, t: Task<T>) {
    log' == log || log' == log[t.id := Rejected(InvalidMethod(t.name))]
  }

  /** `exec` on values: the new task carries the next id `n`, which no task of
      the queue and no settlement has, and joins the back of the queue; the
      places after the step are `place'` and `queue'`. */
  lemma IssueTask<T>(place: map<nat, Place>, n: nat, queue: seq<Task<T>>, hosted: seq<set<nat>>, done: set<nat>,
                     t: Task<T>, place': map<nat, Place>, n': nat, queue': seq<Task<T>>)
    requires Agrees(place, n, Ids(queue), hosted, done) && Ascending(queue) && t.id == n
    requires place' == place[n := Front] && n' == n + 1 && queue' == queue + [t]
    ensures n !in done && forall k :: 0 <= k < |queue| ==> queue[k].id < n
    ensures Ascending(queue')
    ensures Agrees(place', n', Ids(queue'), hosted, done)
  {
    forall k | 0 <= k < |queue| ensures queue[k].id < n {
      IdsAt(queue, k);
    }
    Issue(place, n, Ids(queue), hosted, done);
    IdsAppend(queue, t);
  }

  /** `_next` on values: the head task of `queue` went to the empty slot `s`,
      whose handler now holds `ha`, and the log went from `log` to `log'`. */
  lemma DispatchTask<T>(place: map<nat, Place>, n: nat, queue: seq<Task<T>>, hosted: seq<set<nat>>, log: map<nat, Settlement<T>>,
                        s: nat, ha: set<nat>, log': map<nat, Settlement<T>>,
                        place': map<nat, Place>, n': nat, queue': seq<Task<T>>, hosted': seq<set<nat>>)
    requires Agrees(place, n, Ids(queue), hosted, log.Keys) && Ascending(queue) && queue != []
    requires s < |hosted| && hosted[s] == {}
    requires || (ha == {queue[0].id} && log' == log)
             || (ha == {} && log' == log[queue[0].id := Rejected(InvalidMethod(queue[0].name))])
    requires place' == place[queue[0].id := Slot(s)]
    requires n' == n && queue' == queue[1..] && hosted' == hosted[s := ha]
    ensures Ascending(queue')
    ensures Agrees(place', n', Ids(queue'), hosted', log'.Keys)
  {
    var id := queue[0].id;
    IdsAbove(queue', id);
    assert Ids(queue') == Ids(queue) - {id};
    assert id in Ids(queue);
    DispatchAgrees(place, n, Ids(queue), hosted, log.Keys, id, s, ha, log'.Keys);
  }

  /** A handler event on values: the handler of slot `s` went from `before`,
      holding what `hosted` records for `s`, to `after` without receiving a
      task; `hosted'` records what it now holds and no place changes. */
  lemma SettleSlot<T>(place: map<nat, Place>, n: nat, queue: seq<Task<T>>, hosted: seq<set<nat>>, s: nat,
                      before: HandlerState<T>, after: HandlerState<T>, hosted': seq<set<nat>>)
    requires Agrees(place, n, Ids(queue), hosted, before.settled.Keys) && s < |hosted|
    requires Held(before) == hosted[s] && Conserves(before, after, {})
    requires hosted' == hosted[s := Held(after)]
    ensures Agrees(place, n, Ids(queue), hosted', after.settled.Keys)
  {
    Unsettled(place, n, Ids(queue), hosted, before.settled.Keys, s);
    ConservedSets(before, after);
    SettleAgrees(place, n, Ids(queue), hosted, before.settled.Keys, s, Held(after), after.settled.Keys);
  }

  /** A conserving reaction that received no task, from a handler none of
      whose tasks is settled, in the set terms of SettleAgrees. */
  lemma ConservedSets<T>(before: HandlerState<T>, after: HandlerState<T>)
    requires Conserves(before, after, {})
    requires forall id :: id in Held(before) ==> id !in before.settled
    ensures Held(after) <= Held(before) && Apart(Held(after), after.settled.Keys)
    ensures Held(after) + after.settled.Keys == Held(before) + before.settled.Keys
    ensures before.settled.Keys <= after.settled.Keys
  {
    assert Held(before) + {} == Held(before);
    assert Held(before) + before.settled.Keys + {} == Held(before) + before.settled.Keys;
    assert Apart({}, before.settled.Keys);
  }

  /** A new empty slot is opened: `hosted'` is `hosted` and one empty set. */
  lemma GrowSlot<T>(place: map<nat, Place>, n: nat, queue: seq<Task<T>>, hosted: seq<set<nat>>, done: set<nat>,
                    hosted': seq<set<nat>>)
    requires Agrees(place, n, Ids(queue), hosted, done) && hosted' == hosted + [{}]
    ensures Agrees(place, n, Ids(queue), hosted', done)
  {
    Grow(place, n, Ids(queue), hosted, done);
  }

  class WorkerPool<T> {
    /** `options.max`, the most slots the pool opens. */
    const max: nat
    var workers: seq<WorkerHandler<T>>
    var queue: seq<Task<T>>
    /** `_nextId`. */
    var nextId: nat
    /** The deferreds of all tasks the pool handed out. */
    const log: SettlementLog<T>
    ghost var hosted: seq<set<nat>>
    ghost var place: map<nat, Place>

    /** A handler the pool may keep in a slot: it shares the pool's log and
        is fit for a slot. */
    ghost predicate Sound(w: WorkerHandler<T>)
      reads w
    {
      w.log == log && w.Fit()
    }

    /** The slots: at most `max`, pairwise distinct, each sound, each holding
        what `hosted` records for it. */
    ghost predicate SlotsOk()
      reads this`workers, this`hosted, workers
    {
      && |workers| <= max && |hosted| == |workers|
      && (forall i, j :: 0 <= i < j < |workers| ==> workers[i] != workers[j])
      && (forall i :: 0 <= i < |workers| ==> Sound(workers[i]) && workers[i].Held() == hosted[i])
    }

    /** Every id handed out so far is in exactly one place: the pool's
        queue, the handler of one slot, or the log. */
    ghost predicate Valid()
      reads this`workers, this`hosted, this`queue, this`place, this`nextId, workers, log
    {
      && SlotsOk() && Ascending(queue) && Agrees(place, nextId, Ids(queue), hosted, log.settled.Keys)
    }

    /** At most `max` tasks are out of the pool's queue and unsettled at any
        time: each slot's handler holds at most one. */
    lemma LoadWithinMax()
      requires Valid()
      ensures Load(hosted) <= |workers| <= max
    {
      forall i | 0 <= i < |hosted| ensures |hosted[i]| <= 1 {
        assert Sound(workers[i]) && workers[i].Held() == hosted[i];
        ActiveCountsHeld(workers[i].State());
      }
      LoadBound(hosted);
    }

    /** The `_getWorker` test for slot `i`: idle, or about to be replaced. */
    predicate Free(i: nat)
      requires i < |workers|
      reads this`workers, workers
      ensures Free(i) <==> || (workers[i].status in {Starting, Ready} && workers[i].queue == [] && workers[i].processing == map[])
                           || workers[i].status in {Terminating, Terminated}
    {
      workers[i].Idle() || workers[i].Retired()
    }

    /** The lowest free slot at or after `k`, or `|workers|` when there is none. */
    function FirstFree(k: nat): (r: nat)
      requires k <= |workers|
      reads this`workers, workers
      ensures k <= r <= |workers|
      ensures r < |workers| ==> Free(r)
      ensures forall j :: k <= j < r ==> !Free(j)
      decreases |workers| - k
    {
      if k == |workers| then k else if Free(k) then k else FirstFree(k + 1)
    }

    /** The slot `_getWorker` serves: the lowest free one, else a new one
        while the pool is below `max`, else none. */
    function Target(): (r: Option<nat>)
      reads this`workers, workers
      ensures r.Some? ==> r.value <= |workers| && (r.value < |workers| ==> Free(r.value))
      ensures r.Some? ==> forall j :: 0 <= j < r.value && j < |workers| ==> !Free(j)
      ensures r.Some? && r.value == |workers| ==> |workers| < max
      ensures r.None? <==> (forall j :: 0 <= j < |workers| ==> !Free(j)) && |workers| >= max
    {
      var f := FirstFree(0);
      if f < |workers| then Some(f) else if |workers| < max then Some(|workers|) else None
    }

    /** The handler `_getWorker` would reuse: the one in slot `Target()`,
        when that slot exists; a retired one there would be replaced, and a
        new one would be fresh. */
    function Candidate(): set<WorkerHandler<T>>
      reads this`workers, workers
    {
      if Target().Some? && Target().value < |workers| then {workers[Target().value]} else {}
    }

    constructor (max: nat)
      ensures Valid() && fresh(log) && log.settled == map[]
      ensures this.max == max && workers == [] && queue == [] && nextId == 0
    {
      this.max := max;
      workers := [];
      queue := [];
      nextId := 0;
      log := new SettlementLog();
      hosted := [];
      place := map[];
    }

    /** The `.finally` callback of task `id` is due when the callbacks in
        `ran` have run: its promise has settled and its callback has not run. */
    predicate Due(id: nat, ran: set<nat>)
      reads log
    {
      id in log.settled && id !in ran
    }

    /** The state of the handler `_getWorker` hands over at slot `i`: the
        idle handler there, or else a new one. */
    ghost function Handover(i: nat): (r: HandlerState<T>)
      requires SlotsOk()
      reads this`workers, this`hosted, workers, log
      ensures WfState(r) && MayIdle(r.status) && Active(r) == 0 && r.settled == log.settled
      ensures r.status == Ready ==> r.methods.Some?
    {
      if i < |workers| && workers[i].Idle() then workers[i].State() else Initial(log.settled)
    }

    /** Slot `i` of the slots that were `before` received `t`: it holds a
        handler that went from `start` to `ExecStep(start, t)`, and every
        other slot holds the same handler as before. */
    ghost predicate Received(i: nat, t: Task<T>, before: seq<WorkerHandler<T>>, start: HandlerState<T>)
      requires SlotsOk() && (start.status == Ready ==> start.methods.Some?)
      reads this`workers, this`hosted, workers, log
    {
      && i < |workers|
      && workers == (if i < |before| then before[i := workers[i]] else before + [workers[i]])
      && workers[i].State() == ExecStep(start, t)
    }

    /** `_getWorker`: reuse the lowest idle slot, or put a new handler in
        place of the lowest retired one, or append one while below `max`. */
    method GetWorker() returns (slot: Option<nat>)
      requires Valid()
      modifies this`workers, this`hosted
      ensures Valid()
      ensures slot == old(Target())
      ensures slot.None? ==> workers == old(workers)
      ensures slot.Some? ==> slot.value < |workers| && workers[slot.value].Idle()
      ensures slot.Some? ==> workers[slot.value].State() == old(Handover(slot.value))
      ensures slot.Some? ==> workers == if slot.value < |old(workers)| then old(workers)[slot.value := workers[slot.value]] else old(workers) + [workers[slot.value]]
      ensures slot.Some? ==>
        if old(slot.value < |workers| && workers[slot.value].Idle()) then workers[slot.value] == old(workers[slot.value])
        else fresh(workers[slot.value])
    {
      for i := 0 to |workers|
        invariant FirstFree(i) == FirstFree(0)
      {
        if workers[i].Idle() {
          return Some(i);
        } else if workers[i].Retired() {
          Replace(i);
          return Some(i);
        }
      }
      if |workers| < max {
        Append();
        return Some(|workers| - 1);
      }
      return None;
    }

    /** `this.workers.splice(i, 1, this._createWorker())` on a retired slot. */
    method Replace(i: nat)
      requires Valid() && i < |workers| && workers[i].Retired()
      modifies this`workers
      ensures Valid()
      ensures |workers| == |old(workers)| && fresh(workers[i]) && workers[i].Idle() && workers[i].State() == old(Handover(i))
      ensures workers == old(workers)[i := workers[i]]
    {
      assert Sound(workers[i]) && workers[i].status == Terminated;
      var w := new WorkerHandler(log);
      workers := workers[i := w];
      OthersKept(i);
    }

    /** `this.workers.push(this._createWorker())`. */
    method Append()
      requires Valid() && |workers| < max
      modifies this`workers, this`hosted
      ensures Valid()
      ensures |workers| == |old(workers)| + 1 && fresh(workers[|old(workers)|]) && workers[|old(workers)|].Idle()
      ensures workers[|old(workers)|].State() == old(Handover(|workers|))
      ensures workers == old(workers) + [workers[|old(workers)|]]
    {
      ghost var h0 := hosted;
      var w := new WorkerHandler(log);
      workers := workers + [w];
      hosted := hosted + [{}];
      GrowSlot(place, nextId, queue, h0, log.settled.Keys, hosted);
      forall j | 0 <= j < |workers| - 1 ensures Sound(workers[j]) && workers[j].Held() == hosted[j] {
        assert old(Sound(workers[j]) && workers[j].Held() == hosted[j]);
      }
    }

    /** `_next`: when the queue is not empty and `_getWorker` finds a slot,
        hand the head task to that slot's handler. */
    method Next() returns (slot: Option<nat>)
      requires Valid()
      modifies this`workers, this`hosted, this`queue, this`place, log, if queue == [] then {} else Candidate()
      ensures Valid()
      ensures slot == if old(queue) == [] then None else old(Target())
      ensures slot.None? ==> queue == old(queue) && workers == old(workers) && log.settled == old(log.settled)
      ensures slot.Some? ==> queue == old(queue)[1..] && slot.value < |workers|
      ensures slot.Some? ==> Handed(old(log.settled), log.settled, old(queue)[0])
      ensures slot.Some? ==> Received(slot.value, old(queue)[0], old(workers), old(Handover(slot.value)))
      ensures slot.Some? ==> if old(slot.value < |workers| && workers[slot.value].Idle()) then workers[slot.value] == old(workers[slot.value]) else fresh(workers[slot.value])
    {
      if queue == [] {
        return None;
      }
      slot := GetWorker();
      if slot.Some? {
        ghost var start := workers[slot.value].State();
        Dispatch(slot.value);
        assert workers[slot.value].State() == ExecStep(start, old(queue)[0]);
      }
    }

    /** `worker.exec(task)` on the idle handler of slot `s`: the handler then
        holds `held`, which is the task, or nothing when the task was rejected
        at once; `hosted` follows the handler. */
    method Host(s: nat, t: Task<T>) returns (ghost held: set<nat>)
      requires SlotsOk() && s < |workers| && workers[s].Idle() && t.id !in log.settled
      modifies workers[s], log, this`hosted
      ensures SlotsOk() && |old(hosted)| == |hosted| && s < |hosted| && old(hosted)[s] == {}
      ensures held == workers[s].Held() && hosted == old(hosted)[s := held]
      ensures queue == old(queue) && place == old(place) && nextId == old(nextId)
      ensures || (held == {t.id} && log.settled == old(log.settled))
              || (held == {} && log.settled == old(log.settled)[t.id := Rejected(InvalidMethod(t.name))])
      ensures workers[s].State() == ExecStep(old(workers[s].State()), t)
      ensures forall j :: 0 <= j < |workers| && j != s ==> unchanged(workers[j])
    {
      held := ExecAt(s, t);
      hosted := hosted[s := held];
      OthersKept(s);
    }

    /** `worker.exec(task)` alone: no other handler and no field of the
        pool changes. */
    method ExecAt(s: nat, t: Task<T>) returns (ghost held: set<nat>)
      requires s < |workers| && Sound(workers[s]) && workers[s].Idle() && t.id !in log.settled
      requires forall j :: 0 <= j < |workers| && j != s ==> workers[j] != workers[s]
      modifies workers[s], log
      ensures unchanged(this) && Sound(workers[s]) && held == workers[s].Held()
      ensures forall j :: 0 <= j < |workers| && j != s ==> unchanged(workers[j])
      ensures old(workers[s].Held()) == {}
      ensures workers[s].State() == ExecStep(old(workers[s].State()), t)
      ensures || (held == {t.id} && log.settled == old(log.settled))
              || (held == {} && log.settled == old(log.settled)[t.id := Rejected(InvalidMethod(t.name))])
    {
      var w := workers[s];
      ghost var before := w.State();
      w.Exec(t);
      ExecIdle(before, t);
      held := w.Held();
      forall j | 0 <= j < |workers| && j != s ensures unchanged(workers[j]) {
        assert workers[j] != w;
      }
    }

    /** Only the handler of slot `s` changed, and it is sound and recorded:
        every slot still is. */
    twostate lemma OthersKept(s: nat)
      requires old(SlotsOk()) && s < |workers| == |old(workers)| == |hosted|
      requires hosted == old(hosted)[s := hosted[s]]
      requires forall j :: 0 <= j < |workers| && j != s ==> workers[j] == old(workers[j]) && unchanged(workers[j])
      requires forall j :: 0 <= j < |workers| && j != s ==> workers[j] != workers[s]
      requires Sound(workers[s]) && workers[s].Held() == hosted[s]
      ensures SlotsOk()
    {
      forall j | 0 <= j < |workers| && j != s ensures Sound(workers[j]) && workers[j].Held() == hosted[j] {
        assert old(Sound(workers[j]) && workers[j].Held() == hosted[j]);
      }
    }

    /** `worker.exec(this.queue.shift())` for the idle handler of slot `s`:
        the head task is then held by that handler or already settled. */
    method Dispatch(s: nat)
      requires Valid() && queue != [] && s < |workers| && workers[s].Idle()
      modifies this`queue, this`place, this`hosted, workers[s], log
      ensures Valid()
      ensures queue == old(queue)[1..]
      ensures Handed(old(log.settled), log.settled, old(queue)[0])
      ensures workers == old(workers) && workers[s].State() == ExecStep(old(workers[s].State()), old(queue)[0])
    {
      ghost var q0, p0, h0, n0, l0 := queue, place, hosted, nextId, log.settled;
      var t := queue[0];
      assert t.id in Ids(queue);
      queue, place := queue[1..], place[t.id := Slot(s)];
      ghost var held := Host(s, t);
      DispatchTask(p0, n0, q0, h0, l0, s, held, log.settled, place, nextId, queue, hosted);
    }

    /** The first half of `exec`: a task with the next id joins the tail of
        the queue. */
    method Enqueue(name: string, args: seq<T>) returns (id: nat)
      requires Valid()
      modifies this`queue, this`nextId, this`place
      ensures Valid()
      ensures id == old(nextId) && nextId == id + 1 && queue == old(queue) + [Task(id, name, args)]
      ensures forall k :: 0 <= k < |old(queue)| ==> old(queue)[k].id < id
      ensures id !in log.settled
      ensures workers == old(workers) && Target() == old(Target())
    {
      id := nextId;
      ghost var p0, q0 := place, queue;
      queue, nextId, place := queue + [Task(id, name, args)], nextId + 1, place[id := Front];
      IssueTask(p0, id, q0, hosted, log.settled.Keys, Task(id, name, args), place, nextId, queue);
    }

    /** `exec(method, args)`: a task with the next id joins the tail of the
        queue, and `_next` runs once. The id stands for the returned promise. */
    method Exec(name: string, args: seq<T>) returns (id: nat)
      requires Valid()
      modifies this`workers, this`hosted, this`queue, this`place, this`nextId, log, Candidate()
      ensures Valid()
      ensures id == old(nextId) && nextId == id + 1
      ensures forall k :: 0 <= k < |old(queue)| ==> old(queue)[k].id < id
      ensures id !in old(log.settled)
      ensures var q := old(queue) + [Task(id, name, args)];
        if old(Target()).Some? then queue == q[1..] && Handed(old(log.settled), log.settled, q[0])
        else queue == q && log.settled == old(log.settled) && workers == old(workers)
      ensures old(Target()).Some? ==> var i := old(Target()).value;
        && Received(i, (old(queue) + [Task(id, name, args)])[0], old(workers), old(Handover(i)))
        && if old(i < |workers| && workers[i].Idle()) then workers[i] == old(workers[i]) else fresh(workers[i])
    {
      id := Enqueue(name, args);
      var slot := Next();
    }

    /** The `.finally` callback of the settled task `id`: `_next` runs once
        more. The callbacks run so far, `ran` before and `ran'` after, are
        the promises' business, not the pool's: each runs once, and only once
        its promise has settled. */
    method OnSettled(id: nat, ghost ran: set<nat>) returns (slot: Option<nat>, ghost ran': set<nat>)
      requires Valid() && ran <= log.settled.Keys && Due(id, ran)
      modifies this`workers, this`hosted, this`queue, this`place, log, if queue == [] then {} else Candidate()
      ensures Valid() && ran' == ran + {id} && ran' <= log.settled.Keys && !Due(id, ran')
      ensures slot == if old(queue) == [] then None else old(Target())
      ensures slot.None? ==> queue == old(queue) && log.settled == old(log.settled) && workers == old(workers)
      ensures slot.Some? ==> queue == old(queue)[1..] && Handed(old(log.settled), log.settled, old(queue)[0])
      ensures slot.Some? ==> Received(slot.value, old(queue)[0], old(workers), old(Handover(slot.value)))
      ensures slot.Some? ==> if old(slot.value < |workers| && workers[slot.value].Idle()) then workers[slot.value] == old(workers[slot.value]) else fresh(workers[slot.value])
    {
      slot := Next();
      ran' := ran + {id};
    }

    /** The handler of slot `s` reacts to event `e` through its listener;
        `hosted` follows the handler. */
    method Deliver(s: nat, e: Event<T>) returns (ghost before: HandlerState<T>, ghost after: HandlerState<T>)
      requires SlotsOk() && s < |workers| && Accepts(workers[s].State(), e)
      modifies workers[s], log, this`hosted
      ensures SlotsOk() && |hosted| == |old(hosted)| && s < |hosted|
      ensures before == old(workers[s].State()) && after == workers[s].State() && after == React(before, e)
      ensures WfState(before) && Held(before) == old(hosted)[s] && hosted == old(hosted)[s := Held(after)]
    {
      before, after := HandleAt(s, e);
      hosted := hosted[s := Held(after)];
      OthersKept(s);
    }

    /** The listener of the handler in slot `s` alone: no other handler and
        no field of the pool changes. */
    method HandleAt(s: nat, e: Event<T>) returns (ghost before: HandlerState<T>, ghost after: HandlerState<T>)
      requires s < |workers| && Sound(workers[s]) && Accepts(workers[s].State(), e)
      requires forall j :: 0 <= j < |workers| && j != s ==> workers[j] != workers[s]
      modifies workers[s], log
      ensures unchanged(this) && Sound(workers[s])
      ensures forall j :: 0 <= j < |workers| && j != s ==> unchanged(workers[j])
      ensures before == old(workers[s].State()) && after == workers[s].State() && after == React(before, e)
      ensures WfState(before) && Held(before) == old(workers[s].Held()) && Held(after) == workers[s].Held()
    {
      var w := workers[s];
      before := w.State();
      w.Handle(e);
      after := w.State();
      forall j | 0 <= j < |workers| && j != s ensures unchanged(workers[j]) {
        assert workers[j] != w;
      }
    }

    /** An event of the unit in slot `s` reaches its handler; a result makes
        the task's `.finally` callback due. */
    method On(s: nat, e: Event<T>)
      requires Valid() && s < |workers| && Accepts(workers[s].State(), e)
      modifies workers[s], log, this`hosted
      ensures Valid()
      ensures workers[s].State() == React(old(workers[s].State()), e)
      ensures e.ResultMsg? ==> e.id !in old(log.settled) && e.id in log.settled
    {
      ghost var h0 := hosted;
      if e.ResultMsg? {
        assert e.id in hosted[s];
        Unsettled(place, nextId, Ids(queue), hosted, log.settled.Keys, s);
      }
      ghost var before, after := Deliver(s, e);
      ReactConserves(before, e);
      SettleSlot(place, nextId, queue, h0, s, before, after, hosted);
    }
  }
}
