/** Where each task of a pool went, as plain values: every id the pool has
    handed out is either still in the pool's queue (Front) or was handed to
    the handler of one slot (Slot), which holds it until it is settled. The
    pool keeps a `place` map and the ids each slot's handler holds; the
    lemmas below are the pool's operations seen on these values, each keeping
    the agreement. */
module Placement {
  import opened Tasks

  datatype Place = Front | Slot(index: nat)

  /** `place` gives exactly the ids below `n` one place each; the pool's
      queue ids `front` are exactly the ids placed at the front, every
      settled id (in `done`) was handed to a slot, every id handed to slot
      `i` and not settled is held by it (in `hosted[i]`), and a slot holds
      only unsettled ids handed to it. */
  ghost predicate Agrees(place: map<nat, Place>, n: nat, front: set<nat>, hosted: seq<set<nat>>, done: set<nat>) {
    && (forall id: nat :: id in place <==> id < n)
    && (forall id :: id in front <==> id in place && place[id] == Front)
    && (forall id :: id in done ==> id in place && place[id].Slot?)
    && (forall id :: id in place && place[id].Slot? && id !in done ==> place[id].index < |hosted| && id in hosted[place[id].index])
    && (forall i :: 0 <= i < |hosted| ==> Holds(place, done, i, hosted[i]))
  }

  /** Slot `i` may hold `h`: only ids handed to it and not settled. */
  ghost predicate Holds(place: map<nat, Place>, done: set<nat>, i: nat, h: set<nat>) {
    forall id :: id in h ==> id in place && place[id] == Slot(i) && id !in done
  }

  /** Each id handed out is in exactly one place, and no other id is anywhere. */
  lemma OneHome(place: map<nat, Place>, n: nat, front: set<nat>, hosted: seq<set<nat>>, done: set<nat>, id: nat)
    requires Agrees(place, n, front, hosted, done)
    ensures id < n <==> id in front || id in done || exists i :: 0 <= i < |hosted| && id in hosted[i]
    ensures id in front ==> id !in done
    ensures forall i :: 0 <= i < |hosted| && id in hosted[i] ==> id !in front && id !in done
    ensures forall i, j :: 0 <= i < |hosted| && 0 <= j < |hosted| && id in hosted[i] && id in hosted[j] ==> i == j
  {
    if id < n && id !in front && id !in done {
      assert id in place && place[id].Slot?;
      var i := place[id].index;
      assert 0 <= i < |hosted| && id in hosted[i];
    }
    if exists i :: 0 <= i < |hosted| && id in hosted[i] {
      var i :| 0 <= i < |hosted| && id in hosted[i];
      assert id in place;
    }
  }

  /** No task a slot holds is settled. */
  lemma Unsettled(place: map<nat, Place>, n: nat, front: set<nat>, hosted: seq<set<nat>>, done: set<nat>, s: nat)
    requires Agrees(place, n, front, hosted, done) && s < |hosted|
    ensures forall id :: id in hosted[s] ==> id !in done
  {
  }

  /** `exec` issues id `n` at the front; nothing else moves. */
  lemma Issue(place: map<nat, Place>, n: nat, front: set<nat>, hosted: seq<set<nat>>, done: set<nat>)
    requires Agrees(place, n, front, hosted, done)
    ensures n !in front && n !in done && forall i :: 0 <= i < |hosted| ==> n !in hosted[i]
    ensures Agrees(place[n := Front], n + 1, front + {n}, hosted, done)
  {
    var p := place[n := Front];
    assert forall id :: id in p && p[id] != Front ==> id in place && p[id] == place[id];
  }

  /** A new slot, holding nothing, is opened. */
  lemma Grow(place: map<nat, Place>, n: nat, front: set<nat>, hosted: seq<set<nat>>, done: set<nat>)
    requires Agrees(place, n, front, hosted, done)
    ensures Agrees(place, n, front, hosted + [{}], done)
  {
    var h := hosted + [{}];
    assert forall i :: 0 <= i < |hosted| ==> h[i] == hosted[i];
  }

  /** The head task `id` is handed to the empty slot `s`, whose handler then
      holds `ha` and the log `da`: the task is held there or settled. */
  lemma DispatchAgrees(place: map<nat, Place>, n: nat, front: set<nat>, hosted: seq<set<nat>>, done: set<nat>,
                       id: nat, s: nat, ha: set<nat>, da: set<nat>)
    requires Agrees(place, n, front, hosted, done)
    requires id in front && s < |hosted| && hosted[s] == {}
    requires ha <= {id} && ha + da == done + {id} && done <= da && Apart(ha, da)
    ensures Agrees(place[id := Slot(s)], n, front - {id}, hosted[s := ha], da)
  {
    var p := place[id := Slot(s)];
    var h := hosted[s := ha];
    forall i | 0 <= i < |h| ensures Holds(p, da, i, h[i]) {
      if i != s {
        assert Holds(place, done, i, hosted[i]);
      }
    }
    forall x | x in p && p[x].Slot? && x !in da ensures p[x].index < |h| && x in h[p[x].index] {
      if x != id {
        assert place[x].Slot? && x !in done && place[x].index != s;
      }
    }
  }

  /** The handler of slot `s` reacted to an event with no new task: it now
      holds `ha`, a part of what it held, and the others are in the log `da`.
      No place changes. */
  lemma SettleAgrees(place: map<nat, Place>, n: nat, front: set<nat>, hosted: seq<set<nat>>, done: set<nat>,
                     s: nat, ha: set<nat>, da: set<nat>)
    requires Agrees(place, n, front, hosted, done) && s < |hosted|
    requires ha <= hosted[s] && ha + da == hosted[s] + done && done <= da && Apart(ha, da)
    ensures Agrees(place, n, front, hosted[s := ha], da)
  {
    var h := hosted[s := ha];
    forall i | 0 <= i < |h| ensures Holds(place, da, i, h[i]) {
      assert Holds(place, done, i, hosted[i]);
    }
    forall x | x in place && place[x].Slot? && x !in da ensures place[x].index < |h| && x in h[place[x].index] {
      assert x !in done;
    }
    forall x | x in da ensures x in place && place[x].Slot? {
      if x !in done {
        assert x in hosted[s];
      }
    }
  }

  /** The number of tasks the slots hold. */
  function Load(hosted: seq<set<nat>>): nat {
    if hosted == [] then 0 else |hosted[0]| + Load(hosted[1..])
  }

  /** Slots that hold at most one task each hold at most one task per slot. */
  lemma {:induction false} LoadBound(hosted: seq<set<nat>>)
    requires forall i :: 0 <= i < |hosted| ==> |hosted[i]| <= 1
    ensures Load(hosted) <= |hosted|
  {
    if hosted != [] {
      assert forall i :: 0 <= i < |hosted| - 1 ==> hosted[1..][i] == hosted[i + 1];
      LoadBound(hosted[1..]);
    }
  }
}
