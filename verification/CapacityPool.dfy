/** The capacity pool as an object. */
module CapacityPool {
  // `FairCapacityPool` of `src/core/runtime-capacity.ts`, updated in place. Every method is proved to take exactly
  // the step that CapacitySpec describes.

  import opened JsMap
  import opened CapacitySpec
  import opened CapacityAccounting

  datatype Option<+T> = None | Some(value: T)

  class FairCapacityPool {
    const limits: Limits
    var rooms: JsMap<string, seq<Waiter>>
    var activeRooms: map<string, int>
    var active: int
    var generalActive: int
    var generalRooms: map<string, int>
    var waiting: int
    var closed: bool
    var settled: map<nat, Outcome>   // the state of every promise handed out
    var held: set<Waiter>            // leases whose `released` flag is still down
    var issued: seq<Waiter>          // history
    var grants: seq<Waiter>          // history

    function View(): Pool
      reads this
    {
      Pool(rooms, activeRooms, active, generalActive, generalRooms, waiting, closed, issued, settled, held, grants)
    }

    /** Between operations: accounts in order and nothing left to grant. */
    ghost predicate Valid()
      reads this
    {
      ValidLimits(limits) && Inv(limits, View()) && !CanGrant(limits, View())
    }

    constructor (limits: Limits)
      requires ValidLimits(limits)
      ensures Valid() && this.limits == limits && View() == Empty()
    {
      this.limits := limits;
      rooms, activeRooms, active, generalActive := EmptyMap(), map[], 0, 0;
      generalRooms, waiting, closed := map[], 0, false;
      settled, held, issued, grants := map[], {}, [], [];
      new;
      RunInv(limits, []);
    }

    /** The source's constructor throws on limits it cannot honour. */
    static method Create(limits: Limits) returns (pool: Option<FairCapacityPool>)
      ensures pool.Some? <==> ValidLimits(limits)
      ensures pool.Some? ==> fresh(pool.value) && pool.value.Valid() && pool.value.View() == Empty()
    {
      if !ValidLimits(limits) {
        return None;
      }
      var p := new FairCapacityPool(limits);
      pool := Some(p);
    }

    /** What the counters say about the leases that are out. */
    lemma HeldWithinLimit()
      requires Valid()
      ensures |held| == active <= limits.limit
    {
    }

    /** Resolves or rejects one promise; it must still be pending. */
    method Settle(id: nat, outcome: Outcome)
      requires id !in settled
      modifies this`settled
      ensures settled == old(settled)[id := outcome]
    {
      settled := settled[id := outcome];
    }

    method Acquire(room: string, aborted: bool, reserved: bool) returns (verdict: Refusal, ticket: nat)
      requires Valid()
      modifies this
      ensures Valid()
      ensures View() == CapacitySpec.Acquire(limits, old(View()), room, aborted, reserved)
      ensures verdict == Admission(limits, old(View()), aborted, reserved)
      ensures ticket == |old(issued)|
      ensures verdict == Accepted ==> active + waiting > 0
    {
      ticket := |issued|;
      if closed {
        return PoolClosed, ticket;
      }
      if aborted {
        return Aborted, ticket;
      }
      if waiting >= AdmissionBound(limits, reserved) {
        return QueueFull, ticket;
      }
      hide Inv, CanGrant, Enqueue;
      verdict := Accepted;
      assert Inv(limits, Enqueue(View(), room, reserved)) by {
        EnqueueKeeps(limits, View(), room, reserved);
      }
      AcquiredBusy(limits, View(), room, reserved);
      Push(room, reserved);
      Drain();
    }

    method Push(room: string, reserved: bool)
      modifies this
      ensures View() == Enqueue(old(View()), room, reserved)
    {
      var waiter := Waiter(|issued|, room, reserved);
      rooms := Set(rooms, room, GetOr(rooms, room, []) + [waiter]);
      issued := issued + [waiter];
      waiting := waiting + 1;
    }

    /** Deadline or abort of one waiter; nothing happens once it has left the queue. */
    method Cancel(id: nat) returns (removed: bool)
      requires Valid()
      modifies this
      ensures Valid() && View() == CapacitySpec.Cancel(limits, old(View()), id)
      ensures removed <==> IsQueued(old(View()), id)
      ensures removed ==> old(waiting) > 0
      ensures !removed ==> View() == old(View())
    {
      if id >= |issued| {
        return false;
      }
      var index := Position(QueueOf(View(), issued[id].room), issued[id]);
      if index < 0 {
        return false;
      }
      removed := true;
      hide Inv, CanGrant, Withdraw;
      assert Inv(limits, Withdraw(View(), id)) && id !in settled && waiting > 0 by {
        WithdrawKeeps(limits, View(), id);
        QueuedIsPending(limits, View(), id);
        QueuedIsBusy(limits, View(), id);
      }
      TakeOut(id, index);
      Drain();
    }

    method TakeOut(id: nat, index: nat)
      requires IsQueued(View(), id) && index == Position(QueueOf(View(), issued[id].room), issued[id])
      requires id !in settled
      modifies this
      ensures View() == Withdraw(old(View()), id)
    {
      hide Position, IndexOf, RemoveKey;
      var room := issued[id].room;
      var queue := Without(GetOr(rooms, room, []), index);
      waiting := waiting - 1;
      if queue == [] {
        rooms := Delete(rooms, room);
      } else {
        rooms := Set(rooms, room, queue);
      }
      Settle(id, Rejected);
    }

    /** `lease.release()`: a lease already returned is left alone. */
    method Release(lease: Waiter)
      requires Valid()
      modifies this
      ensures Valid() && View() == CapacitySpec.Release(limits, old(View()), lease)
      ensures lease !in held
      ensures old(active) == 0 ==> View() == old(View())
    {
      if lease !in held {
        return;
      }
      hide Inv, CanGrant, Return;
      assert Inv(limits, Return(View(), lease)) && lease.id in settled && active != 0 by {
        ReturnKeeps(limits, View(), lease);
        HeldIsSettled(limits, View(), lease);
      }
      FreeSlot(lease);
      DrainLeavesReturned(limits, View(), lease);
      Drain();
    }

    method FreeSlot(lease: Waiter)
      requires lease in held
      modifies this
      ensures View() == Return(old(View()), lease) && lease !in held && settled == old(settled)
    {
      held := held - {lease};
      active := active - 1;
      if !lease.reserved {
        generalActive := generalActive - 1;
        generalRooms := Subtract(generalRooms, lease.room);
      }
      activeRooms := Subtract(activeRooms, lease.room);
    }

    method Drain()
      requires ValidLimits(limits) && Inv(limits, View())
      modifies this
      ensures View() == CapacitySpec.Drain(limits, old(View()))
      ensures Valid() && issued == old(issued) && closed == old(closed)
    {
      while !closed && active < limits.limit
        invariant Inv(limits, View()) && CapacitySpec.Drain(limits, View()) == CapacitySpec.Drain(limits, old(View()))
        invariant issued == old(issued) && closed == old(closed)
        decreases Queued(View())
      {
        var entry := FirstRoom(limits, View(), rooms.keys);
        if entry < 0 {
          return;
        }
        GrantKeeps(limits, View());
        GrantTakesPending(limits, View());
        GrantShrinks(limits, View());
        GrantAt(rooms.keys[entry], FirstEligible(limits, View(), GetOr(rooms, rooms.keys[entry], [])));
      }
    }

    /** The body of the drain loop: position `index` of the queue of `room` gets its lease. */
    method GrantAt(room: string, index: nat)
      requires CanGrant(limits, View()) && room == NextRoom(limits, View()) && index == NextIndex(limits, View())
      requires NextWaiter(limits, View()).id !in settled
      modifies this
      ensures View() == Grant(limits, old(View()))
    {
      hide CanGrant, NextRoom, NextIndex, Set, Delete, Without, Add, Eligible;
      var waiter := GetOr(rooms, room, [])[index];
      assert waiter == NextWaiter(limits, View());
      RotateRoom(room, Without(GetOr(rooms, room, []), index));
      CountLease(waiter, room);
      Settle(waiter.id, Granted);
      held, grants := held + {waiter}, grants + [waiter];
    }

    /** The served room goes to the back with what is left of its queue, or drops out. */
    method RotateRoom(room: string, queue: seq<Waiter>)
      modifies this`rooms
      ensures rooms == if queue == [] then Delete(old(rooms), room) else Set(Delete(old(rooms), room), room, queue)
    {
      rooms := Delete(rooms, room);
      if queue != [] {
        rooms := Set(rooms, room, queue);
      }
    }

    method CountLease(waiter: Waiter, room: string)
      modifies this`generalActive, this`generalRooms, this`waiting, this`active, this`activeRooms
      ensures generalActive == if waiter.reserved then old(generalActive) else old(generalActive) + 1
      ensures generalRooms == if waiter.reserved then old(generalRooms) else Add(old(generalRooms), room)
      ensures waiting == old(waiting) - 1 && active == old(active) + 1 && activeRooms == Add(old(activeRooms), room)
    {
      if !waiter.reserved {
        generalActive := generalActive + 1;
        generalRooms := Add(generalRooms, room);
      }
      waiting := waiting - 1;
      active := active + 1;
      activeRooms := Add(activeRooms, room);
    }

    /** Rejects every waiter, room by room, each of them once. */
    method Close()
      requires Valid()
      modifies this
      ensures Valid() && View() == Shut(old(View()))
    {
      hide Inv, CanGrant;
      ghost var before := View();
      closed := true;
      for i := 0 to |rooms.keys|
        invariant View() == before.(closed := true, settled := settled)
        invariant RejectedFrom(before, settled, rooms.keys[..i], [])
      {
        RejectQueue(before, i);
      }
      AllRejected(limits, before, settled);
      rooms := EmptyMap();
      waiting := 0;
      ShutKeeps(limits, before);
      assert !CanGrant(limits, Shut(before)) by { ShutRests(limits, before); }
    }

    method RejectQueue(ghost before: Pool, i: nat)
      requires Inv(limits, before) && i < |rooms.keys|
      requires View() == before.(closed := true, settled := settled)
      requires RejectedFrom(before, settled, rooms.keys[..i], [])
      modifies this`settled
      ensures RejectedFrom(before, settled, rooms.keys[..i + 1], [])
    {
      hide Inv, RejectedFrom;
      var queue := GetOr(rooms, rooms.keys[i], []);
      for j := 0 to |queue|
        invariant RejectedFrom(before, settled, rooms.keys[..i], queue[..j])
      {
        RejectNext(limits, before, settled, i, j);
        Settle(queue[j].id, Rejected);
        assert queue[..j + 1] == queue[..j] + [queue[j]];
      }
      RejectedRoom(limits, before, settled, i);
    }
  }

  // ----- Closing -----

  /** Exactly the pending waiters of these rooms, and of this part of one more queue, are rejected. */
  ghost predicate RejectedFrom(s: Pool, settled: map<nat, Outcome>, rooms: seq<string>, part: seq<Waiter>) {
    && (forall id :: id in s.settled ==> id in settled && settled[id] == s.settled[id])
    && (forall id :: id in settled && id !in s.settled ==>
          id < |s.issued| && settled[id] == Rejected && (s.issued[id].room in rooms || s.issued[id] in part))
    && (forall w :: Waits(s, w) && (w.room in rooms || w in part) ==> w.id in settled)
  }

  /** The next waiter of the queue is still pending, and rejecting it keeps count. */
  lemma RejectNext(c: Limits, s: Pool, settled: map<nat, Outcome>, i: nat, j: nat)
    requires Inv(c, s) && i < |s.rooms.keys| && j < |QueueOf(s, s.rooms.keys[i])|
    requires RejectedFrom(s, settled, s.rooms.keys[..i], QueueOf(s, s.rooms.keys[i])[..j])
    ensures var q := QueueOf(s, s.rooms.keys[i]);
            q[j].id !in settled
            && RejectedFrom(s, settled[q[j].id := Rejected], s.rooms.keys[..i], q[..j] + [q[j]])
  {
    var q, w := QueueOf(s, s.rooms.keys[i]), QueueOf(s, s.rooms.keys[i])[j];
    assert QueueOk(s.issued, s.rooms.keys[i], q);
    assert w in q && Known(s.issued, w) && Waits(s, w);
    assert w.room !in s.rooms.keys[..i];
    assert w !in q[..j];
  }

  lemma RejectedRoom(c: Limits, s: Pool, settled: map<nat, Outcome>, i: nat)
    requires Inv(c, s) && i < |s.rooms.keys|
    requires RejectedFrom(s, settled, s.rooms.keys[..i], QueueOf(s, s.rooms.keys[i])[..|QueueOf(s, s.rooms.keys[i])|])
    ensures RejectedFrom(s, settled, s.rooms.keys[..i + 1], [])
  {
    var r := s.rooms.keys[i];
    assert QueueOk(s.issued, r, QueueOf(s, r));
    assert QueueOf(s, r)[..|QueueOf(s, r)|] == QueueOf(s, r);
    assert s.rooms.keys[..i + 1] == s.rooms.keys[..i] + [r];
  }

  /** Walking all the queues rejects exactly the promises that were pending. */
  lemma AllRejected(c: Limits, s: Pool, settled: map<nat, Outcome>)
    requires Inv(c, s) && RejectedFrom(s, settled, s.rooms.keys[..|s.rooms.keys|], [])
    ensures settled == Shut(s).settled
  {
    SettledKnown(c, s);
    assert s.rooms.keys[..|s.rooms.keys|] == s.rooms.keys;
    forall id: nat | id < |s.issued| && id !in s.settled
      ensures Waits(s, s.issued[id]) && s.issued[id].room in s.rooms.keys && s.issued[id].id == id
    {
      PendingWaits(c, s, id);
    }
    hide Inv;
    assert forall id :: id in settled <==> id in Shut(s).settled;
  }

  lemma SettledKnown(c: Limits, s: Pool)
    requires Inv(c, s)
    ensures forall id :: id in s.settled ==> id < |s.issued|
  {
  }

  lemma PendingWaits(c: Limits, s: Pool, id: nat)
    requires Inv(c, s) && id < |s.issued| && id !in s.settled
    ensures Waits(s, s.issued[id]) && s.issued[id].room in s.rooms.keys && s.issued[id].id == id
  {
    hide QueueOk, LeasesInv, CapsInv;
    assert Known(s.issued, s.issued[id]);
  }

  lemma ShutRests(c: Limits, s: Pool)
    ensures !CanGrant(c, Shut(s))
  {
  }

  lemma QueuedIsPending(c: Limits, s: Pool, id: nat)
    requires Inv(c, s) && IsQueued(s, id)
    ensures id !in s.settled
  {
    assert Known(s.issued, s.issued[id]) && Waits(s, s.issued[id]);
  }

  lemma HeldIsSettled(c: Limits, s: Pool, lease: Waiter)
    requires Inv(c, s) && lease in s.held
    ensures lease.id in s.settled
  {
  }

  lemma GrantTakesPending(c: Limits, s: Pool)
    requires Inv(c, s) && CanGrant(c, s)
    ensures NextWaiter(c, s).id !in s.settled
  {
    GrantQueues(c, s);
  }

  /** A returned lease is not handed out again. */
  lemma {:induction false} DrainLeavesReturned(c: Limits, s: Pool, lease: Waiter)
    requires Inv(c, s) && lease !in s.held && lease.id in s.settled
    ensures lease !in Drain(c, s).held
    decreases Queued(s)
  {
    if CanGrant(c, s) {
      GrantKeeps(c, s);
      GrantTakesPending(c, s);
      GrantShrinks(c, s);
      hide Inv, CanGrant;
      DrainLeavesReturned(c, Grant(c, s), lease);
    }
  }

  /** A drain turns waiters into leases one for one. */
  lemma {:induction false} DrainKeepsLoad(c: Limits, s: Pool)
    requires Inv(c, s)
    ensures Drain(c, s).active + Drain(c, s).waiting == s.active + s.waiting
    decreases Queued(s)
  {
    if CanGrant(c, s) {
      GrantKeeps(c, s);
      GrantShrinks(c, s);
      DrainKeepsLoad(c, Grant(c, s));
    }
  }

  /** After an accepted request the pool is not idle. */
  lemma AcquiredBusy(c: Limits, s: Pool, room: string, reserved: bool)
    requires ValidLimits(c) && Inv(c, s) && Admission(c, s, false, reserved) == Accepted
    ensures CapacitySpec.Acquire(c, s, room, false, reserved).active
          + CapacitySpec.Acquire(c, s, room, false, reserved).waiting > 0
  {
    EnqueueKeeps(c, s, room, reserved);
    DrainKeepsLoad(c, Enqueue(s, room, reserved));
  }

  lemma QueuedIsBusy(c: Limits, s: Pool, id: nat)
    requires Inv(c, s) && IsQueued(s, id)
    ensures s.waiting > 0
  {
    WithdrawKeeps(c, s, id);
    assert Queued(Withdraw(s, id)) >= 0;
  }
}
