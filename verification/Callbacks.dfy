/** The queue of notified callbacks of asynchronous executions. Each method is one atomic step of some thread. */
module Callbacks {
  import opened Sequences

  /** What a notification records in a callback. */
  datatype Status = Success | Failure

  /** The counter from which the callbacks of all managers take their ids. */
  class IdCounter {
    var nextId: nat

    constructor ()
      ensures nextId == 0
    {
      nextId := 0;
    }
  }

  class AsyncExecutionCallback {
    const inferenceId: nat
    var status: Status

    constructor (id: nat)
      ensures inferenceId == id && status == Failure
    {
      inferenceId, status := id, Failure;
    }
  }

  /** The ids of s, each at its first occurrence only. */
  ghost function Firsts(s: seq<nat>): seq<nat> {
    if s == [] then []
    else
      var t, id := s[..|s| - 1], s[|s| - 1];
      if id in t then Firsts(t) else Firsts(t) + [id]
  }

  lemma {:induction false} FirstsMembers(s: seq<nat>)
    ensures NoDup(Firsts(s)) && forall id :: id in Firsts(s) <==> id in s
  {
    if s != [] {
      var t, id := s[..|s| - 1], s[|s| - 1];
      FirstsMembers(t);
      assert s == t + [id];
      if id !in t {
        AppendMembers(Firsts(t), id);
      }
    }
  }

  lemma {:induction false} FirstsOfDistinct(s: seq<nat>)
    requires NoDup(s)
    ensures Firsts(s) == s
  {
    if s != [] {
      PrefixNoDup(s);
      FirstsOfDistinct(s[..|s| - 1]);
    }
  }

  /** The bookkeeping by ids: of the notifications the first taken ones have left the queue; a callback leaves the map
      and is handed out at its first notification. */
  ghost predicate Accounted(waiting: set<nat>, queue: seq<nat>, created: set<nat>, notified: seq<nat>, taken: nat, handedOut: seq<nat>) {
    && (forall id :: id in notified ==> id in created)
    && taken <= |notified| && queue == notified[taken..] && handedOut == Firsts(notified[..taken])
    && (forall id :: id in waiting <==> id in created && id !in notified[..taken])
  }

  lemma {:induction false} NotifyAccounted(waiting: set<nat>, queue: seq<nat>, created: set<nat>, notified: seq<nat>, taken: nat,
                                           handedOut: seq<nat>, id: nat)
    requires Accounted(waiting, queue, created, notified, taken, handedOut) && id in created
    ensures Accounted(waiting, queue + [id], created, notified + [id], taken, handedOut)
  {
    assert (notified + [id])[..taken] == notified[..taken] && (notified + [id])[taken..] == queue + [id];
  }

  /** Taking the front of the queue keeps the books. The front is still in the map exactly if this is its first notification. */
  lemma {:induction false} TakeAccounted(waiting: set<nat>, queue: seq<nat>, created: set<nat>, notified: seq<nat>, taken: nat,
                                         handedOut: seq<nat>)
    requires Accounted(waiting, queue, created, notified, taken, handedOut) && queue != []
    ensures taken < |notified| && queue[0] == notified[taken]
    ensures queue[0] in waiting <==> queue[0] !in notified[..taken]
    ensures queue[0] in waiting <==> queue[0] !in handedOut
    ensures Accounted(waiting - {queue[0]}, queue[1..], created, notified, taken + 1,
                      if queue[0] in waiting then handedOut + [queue[0]] else handedOut)
  {
    var next := taken + 1;
    assert notified[..next] == notified[..taken] + [queue[0]];
    assert notified[..next][..taken] == notified[..taken];
    FirstsMembers(notified[..taken]);
    assert queue[0] in notified;
  }

  /** No callback is handed out twice, those handed out are the first ones notified, and when the queue is empty none is missing. */
  lemma {:induction false} HandedOutInOrder(waiting: set<nat>, queue: seq<nat>, created: set<nat>, notified: seq<nat>, taken: nat,
                                            handedOut: seq<nat>)
    requires Accounted(waiting, queue, created, notified, taken, handedOut)
    ensures NoDup(handedOut) && forall id :: id in notified ==> id in handedOut || id in queue
    ensures queue == [] ==> handedOut == Firsts(notified)
    ensures NoDup(notified) ==> handedOut == notified[..taken]
  {
    FirstsMembers(notified[..taken]);
    assert notified == notified[..taken] + notified[taken..];
    assert queue == [] ==> notified[..taken] == notified;
    if NoDup(notified) {
      forall i, j | 0 <= i < j < taken
        ensures notified[..taken][i] != notified[..taken][j]
      {
        NoDupDistinct(notified, i, j);
      }
      NoDupIntro(notified[..taken]);
      FirstsOfDistinct(notified[..taken]);
    }
  }

  /** Every lookup of a run finds its callback if and only if no callback is notified twice. */
  lemma {:induction false} LookupsSucceedExactly(notified: seq<nat>)
    ensures (forall k :: 0 <= k < |notified| ==> notified[k] !in notified[..k]) <==> NoDup(notified)
  {
    if NoDup(notified) {
      forall k | 0 <= k < |notified|
        ensures notified[k] !in notified[..k]
      {
        forall j | 0 <= j < k
          ensures notified[..k][j] != notified[k]
        {
          NoDupDistinct(notified, j, k);
        }
      }
    }
    if forall k :: 0 <= k < |notified| ==> notified[k] !in notified[..k] {
      forall i, j | 0 <= i < j < |notified|
        ensures notified[i] != notified[j]
      {
        assert notified[..j][i] == notified[i];
      }
      NoDupIntro(notified);
    }
  }

  class AsyncCallbackManager {
    const counter: IdCounter
    var callbacks: map<nat, AsyncExecutionCallback>
    var notificationQueue: seq<nat>
    ghost var created: map<nat, AsyncExecutionCallback>
    ghost var notified: seq<nat>
    ghost var taken: nat
    ghost var handedOut: seq<nat>

    ghost predicate Valid()
      reads this, counter
    {
      && (forall id :: id in created ==> id <= counter.nextId && created[id].inferenceId == id)
      && (forall id :: id in callbacks ==> id in created && callbacks[id] == created[id])
      && Accounted(callbacks.Keys, notificationQueue, created.Keys, notified, taken, handedOut)
    }

    constructor (counter: IdCounter)
      ensures Valid() && this.counter == counter && created == map[] && notified == [] && taken == 0 && handedOut == []
    {
      this.counter := counter;
      callbacks, notificationQueue, created, notified, taken, handedOut := map[], [], map[], [], 0, [];
    }

    /** AsyncCallbackManager::GetNewCallback. The id is new, so the insertion cannot fail. */
    method GetNewCallback() returns (cb: AsyncExecutionCallback)
      requires Valid()
      modifies this, counter
      ensures Valid() && fresh(cb) && cb.inferenceId !in old(created) && cb.status == Failure
      ensures created == old(created)[cb.inferenceId := cb] && notified == old(notified) && taken == old(taken) && handedOut == old(handedOut)
      ensures counter.nextId == old(counter.nextId) + 1
    {
      counter.nextId := counter.nextId + 1;
      cb := new AsyncExecutionCallback(counter.nextId);
      callbacks := callbacks[cb.inferenceId := cb];
      created := created[cb.inferenceId := cb];
    }

    /** AsyncExecutionCallback::Notify for a callback of this manager. Nothing stops a second notification. */
    method Notify(cb: AsyncExecutionCallback, status: Status)
      requires Valid() && cb.inferenceId in created && created[cb.inferenceId] == cb
      modifies this`notificationQueue, this`notified, cb`status
      ensures Valid() && cb.status == status
      ensures notified == old(notified) + [cb.inferenceId]
    {
      NotifyAccounted(callbacks.Keys, notificationQueue, created.Keys, notified, taken, handedOut, cb.inferenceId);
      cb.status := status;
      notificationQueue := notificationQueue + [cb.inferenceId];
      notified := notified + [cb.inferenceId];
    }

    /** AsyncCallbackManager::GetNotifiedCallback, once its wait is over: the callback notified longest ago that has not
        been taken from the queue. The lookup in the map fails, and null stands for the exception, exactly if the callback
        had been notified before. */
    method GetNotifiedCallback() returns (cb: AsyncExecutionCallback?)
      requires Valid() && notificationQueue != []
      modifies this`callbacks, this`notificationQueue, this`taken, this`handedOut
      ensures Valid() && taken == old(taken) + 1 <= |notified|
      ensures cb != null <==> notified[old(taken)] !in notified[..old(taken)]
      ensures cb != null ==> notified[old(taken)] in created && cb == created[notified[old(taken)]]
      ensures cb != null ==> handedOut == old(handedOut) + [cb.inferenceId] && cb.inferenceId !in old(handedOut)
      ensures cb == null ==> handedOut == old(handedOut) && callbacks == old(callbacks)
    {
      TakeAccounted(callbacks.Keys, notificationQueue, created.Keys, notified, taken, handedOut);
      var id := notificationQueue[0];
      notificationQueue := notificationQueue[1..];
      taken := taken + 1;
      if id !in callbacks {
        assert callbacks.Keys - {id} == callbacks.Keys;
        return null;
      }
      cb := callbacks[id];
      assert (callbacks - {id}).Keys == callbacks.Keys - {id};
      callbacks := callbacks - {id};
      handedOut := handedOut + [id];
    }
  }
}
