/** Tasks, the `task` messages that carry them to an execution unit, and the
    settle-once log that stands for every task's deferred promise
    (`createDeferred` in lib/index.js). Argument, value and error payloads are
    an opaque type parameter `T`: nothing in the pool inspects them. */
module Tasks {

  datatype Option<T> = None | Some(value: T)

  /** A submitted call `{id, method, args}`. The source's `method` property is
      called `name` here; the task's deferred is its entry in the settlement
      log, keyed by `id`. */
  datatype Task<T> = Task(id: nat, name: string, args: seq<T>)

  /** The `data` of a `task` message posted to the execution unit. */
  datatype TaskMessage<T> = TaskMessage(id: nat, name: string, args: seq<T>)

  /** Why a task's promise was rejected. */
  datatype Reason<T> =
    | InvalidMethod(name: string)  // `new Error('Invalid method ' + method)`
    | TaskFailed(error: T)         // the `error` of a failed `task:result`
    | WorkerError(error: T)        // the argument of the unit's `error` event
    | WorkerExited(code: int)      // `new Error('Worker terminated with code ' + code)`

  datatype Settlement<T> = Resolved(value: T) | Rejected(reason: Reason<T>)

  /** The part of a task that crosses to the execution unit (the deferred stays behind). */
  function MessageOf<T>(t: Task<T>): TaskMessage<T> {
    TaskMessage(t.id, t.name, t.args)
  }

  /** The ids of the tasks in a queue. */
  function Ids<T>(q: seq<Task<T>>): set<nat> {
    if q == [] then {} else {q[0].id} + Ids(q[1..])
  }

  /** No two tasks of the queue share an id. */
  predicate DistinctIds<T>(q: seq<Task<T>>) {
    q == [] || (q[0].id !in Ids(q[1..]) && DistinctIds(q[1..]))
  }

  /** A task is found in its queue's id set. */
  lemma {:induction false} IdsAt<T>(q: seq<Task<T>>, k: nat)
    requires k < |q|
    ensures q[k].id in Ids(q)
  {
    if k > 0 {
      IdsAt(q[1..], k - 1);
    }
  }

  /** Appending a task adds exactly its id, and keeps the ids distinct exactly
      when the id is new. */
  lemma {:induction false} IdsAppend<T>(q: seq<Task<T>>, t: Task<T>)
    ensures Ids(q + [t]) == Ids(q) + {t.id}
    ensures DistinctIds(q + [t]) <==> DistinctIds(q) && t.id !in Ids(q)
  {
    if q == [] {
      assert (q + [t])[1..] == [];
    } else {
      assert (q + [t])[1..] == q[1..] + [t];
      IdsAppend(q[1..], t);
    }
  }

  /** Every id of a queue whose tasks all carry ids above `b` is above `b`. */
  lemma {:induction false} IdsAbove<T>(q: seq<Task<T>>, b: int)
    requires forall k :: 0 <= k < |q| ==> b < q[k].id
    ensures forall id :: id in Ids(q) ==> b < id
  {
    if q != [] {
      assert forall k :: 0 <= k < |q| - 1 ==> q[1..][k] == q[k + 1];
      IdsAbove(q[1..], b);
    }
  }

  /** No element of `a` is in `b`. */
  ghost predicate Apart(a: set<nat>, b: set<nat>) {
    forall x :: x in a ==> x !in b
  }

  /** `after` keeps every settlement recorded in `before`. */
  ghost predicate Extends<T>(before: map<nat, Settlement<T>>, after: map<nat, Settlement<T>>) {
    forall id :: id in before ==> id in after && after[id] == before[id]
  }

  /** Resolving or rejecting a deferred: the first settlement of an id wins and
      a later one is a no-op, as with a JavaScript promise. */
  function SettleOnce<T>(log: map<nat, Settlement<T>>, id: nat, s: Settlement<T>): (r: map<nat, Settlement<T>>)
    ensures r.Keys == log.Keys + {id}
    ensures Extends(log, r)
    ensures id !in log ==> r[id] == s
  {
    if id in log then log else log[id := s]
  }

  /** Rejecting the deferreds of all `ids` with one reason; ids already settled keep their settlement. */
  function RejectAll<T>(log: map<nat, Settlement<T>>, ids: set<nat>, reason: Reason<T>): (r: map<nat, Settlement<T>>)
    ensures r.Keys == log.Keys + ids
    ensures Extends(log, r)
    ensures forall id :: id in ids && id !in log ==> r[id] == Rejected(reason)
  {
    map id | id in log.Keys + ids :: if id in log then log[id] else Rejected(reason)
  }

  /** Rejecting one more id extends a bulk rejection by that id. */
  lemma RejectAllStep<T>(log: map<nat, Settlement<T>>, ids: set<nat>, id: nat, reason: Reason<T>)
    ensures SettleOnce(RejectAll(log, ids, reason), id, Rejected(reason)) == RejectAll(log, ids + {id}, reason)
  {
    var lhs := SettleOnce(RejectAll(log, ids, reason), id, Rejected(reason));
    var rhs := RejectAll(log, ids + {id}, reason);
    assert lhs.Keys == rhs.Keys;
    forall k | k in lhs.Keys ensures lhs[k] == rhs[k] {
    }
  }

  /** A second settlement of the same id changes nothing. */
  lemma SettleOnceIdempotent<T>(log: map<nat, Settlement<T>>, id: nat, s1: Settlement<T>, s2: Settlement<T>)
    ensures SettleOnce(SettleOnce(log, id, s1), id, s2) == SettleOnce(log, id, s1)
  {
  }

  /** The settlement log shared by a pool and its handlers: one entry per
      settled task, never overwritten (the deferreds of `createDeferred`). */
  class SettlementLog<T> {
    var settled: map<nat, Settlement<T>>

    constructor ()
      ensures settled == map[]
    {
      settled := map[];
    }

    /** `deferred.resolve(value)` or `deferred.reject(reason)` for task `id`. */
    method Settle(id: nat, s: Settlement<T>)
      modifies this
      ensures settled == SettleOnce(old(settled), id, s)
    {
      settled := SettleOnce(settled, id, s);
    }
  }
}
