/** Accounting of the capacity pool. */
module CapacityAccounting {
  // Accounting of the capacity pool over every history: the counters are the leases that are out, every cap holds,
  // every promise is settled at most once, and no free slot is left beside a waiter that could use it.

  import opened JsMap
  import opened CapacitySpec

  function InRoom(held: set<Waiter>, r: string): set<Waiter> {
    set w | w in held && w.room == r
  }

  function General(held: set<Waiter>): set<Waiter> {
    set w | w in held && !w.reserved
  }

  ghost predicate Counts(m: map<string, int>, held: set<Waiter>) {
    && (forall r :: Tally(m, r) == |InRoom(held, r)|)
    && (forall r :: r in m ==> m[r] > 0)
  }

  ghost predicate Known(issued: seq<Waiter>, w: Waiter) {
    w.id < |issued| && issued[w.id] == w
  }

  ghost predicate Ascending(q: seq<Waiter>) {
    forall j, k :: 0 <= j < k < |q| ==> q[j].id < q[k].id
  }

  /** A room's queue holds waiters of that room in order of arrival. */
  ghost predicate QueueOk(issued: seq<Waiter>, r: string, q: seq<Waiter>) {
    && (forall w :: w in q ==> w.room == r && Known(issued, w))
    && Ascending(q)
  }

  ghost predicate Waits(s: Pool, w: Waiter) {
    w in QueueOf(s, w.room)
  }

  /** The entries of the room map: no key twice, no empty queue, `waiting` is their total. */
  ghost predicate RoomsInv(s: Pool) {
    && ValidMap(s.rooms)
    && (forall r :: r in s.rooms.vals ==> s.rooms.vals[r] != [])
    && s.waiting == Queued(s)
  }

  ghost predicate QueuesInv(s: Pool) {
    && RoomsInv(s)
    && (forall i :: 0 <= i < |s.issued| ==> s.issued[i].id == i)
    && (forall r :: QueueOk(s.issued, r, QueueOf(s, r)))
  }

  /** A promise is pending exactly while its waiter is queued, and a lease is a granted promise. */
  ghost predicate PromisesInv(s: Pool) {
    && (forall i :: i in s.settled ==> i < |s.issued|)
    && (forall w :: Known(s.issued, w) ==> (w.id in s.settled <==> !Waits(s, w)))
    && (forall w :: w in s.held ==> Known(s.issued, w) && w.id in s.settled && s.settled[w.id] == Granted)
  }

  ghost predicate LeasesInv(s: Pool) {
    && s.active == |s.held|
    && s.generalActive == |General(s.held)|
    && Counts(s.activeRooms, s.held)
    && Counts(s.generalRooms, General(s.held))
  }

  ghost predicate CapsInv(c: Limits, s: Pool) {
    && s.active <= c.limit
    && s.generalActive <= c.limit - c.reserved
    && (forall r :: Tally(s.activeRooms, r) <= c.perRoom)
    && (forall r :: Tally(s.generalRooms, r) <= RoomGeneralCap(c))
    && s.waiting <= c.maxWaiting
  }

  ghost predicate Inv(c: Limits, s: Pool) {
    && QueuesInv(s) && PromisesInv(s) && LeasesInv(s) && CapsInv(c, s)
    && (s.closed ==> s.rooms == EmptyMap())
  }

  /** Promises settled in `s` are settled the same way in `s'`. */
  ghost predicate SettledKept(s: Pool, s': Pool) {
    forall i :: i in s.settled ==> i in s'.settled && s'.settled[i] == s.settled[i]
  }

  // ----- Lease counters -----

  lemma HoldOne(held: set<Waiter>, w: Waiter)
    requires w !in held
    ensures |held + {w}| == |held| + 1
    ensures forall r :: |InRoom(held + {w}, r)| == |InRoom(held, r)| + if r == w.room then 1 else 0
    ensures General(held + {w}) == if w.reserved then General(held) else General(held) + {w}
  {
    forall r ensures |InRoom(held + {w}, r)| == |InRoom(held, r)| + if r == w.room then 1 else 0 {
      assert InRoom(held + {w}, r) == if r == w.room then InRoom(held, r) + {w} else InRoom(held, r);
    }
  }

  lemma CountsAdd(m: map<string, int>, held: set<Waiter>, w: Waiter)
    requires Counts(m, held) && w !in held
    ensures Counts(Add(m, w.room), held + {w})
  {
    HoldOne(held, w);
  }

  lemma CountsSubtract(m: map<string, int>, held: set<Waiter>, w: Waiter)
    requires Counts(m, held) && w in held
    ensures Counts(Subtract(m, w.room), held - {w})
    ensures forall r :: Tally(Subtract(m, w.room), r) <= Tally(m, r)
  {
    HoldOne(held - {w}, w);
    assert held - {w} + {w} == held;
  }

  // ----- Each step keeps the invariant -----

  lemma QueueOkLater(issued: seq<Waiter>, w: Waiter, r: string, q: seq<Waiter>)
    requires QueueOk(issued, r, q)
    ensures QueueOk(issued + [w], r, q)
  {
  }

  lemma QueueOkPush(issued: seq<Waiter>, w: Waiter, q: seq<Waiter>)
    requires QueueOk(issued, w.room, q) && w.id == |issued|
    ensures QueueOk(issued + [w], w.room, q + [w])
  {
  }

  lemma EnqueueRooms(s: Pool, room: string, reserved: bool)
    requires RoomsInv(s)
    ensures RoomsInv(Enqueue(s, room, reserved))
  {
    var q := QueueOf(s, room) + [Waiter(|s.issued|, room, reserved)];
    SetValid(s.rooms, room, q);
    TotalAfterSet(s.rooms, room, q);
  }

  lemma EnqueueQueues(s: Pool, room: string, reserved: bool)
    requires QueuesInv(s)
    ensures QueuesInv(Enqueue(s, room, reserved))
  {
    var s', w := Enqueue(s, room, reserved), Waiter(|s.issued|, room, reserved);
    EnqueueRooms(s, room, reserved);
    forall r ensures QueueOk(s'.issued, r, QueueOf(s', r)) {
      QueueOkLater(s.issued, w, r, QueueOf(s, r));
      QueueOkPush(s.issued, w, QueueOf(s, room));
    }
  }

  lemma EnqueuePromises(s: Pool, room: string, reserved: bool)
    requires QueuesInv(s) && PromisesInv(s)
    ensures PromisesInv(Enqueue(s, room, reserved))
  {
    var s', w := Enqueue(s, room, reserved), Waiter(|s.issued|, room, reserved);
    forall x | Known(s'.issued, x) ensures x.id in s'.settled <==> !Waits(s', x) {
      if x == w {
        assert QueueOf(s', room)[|QueueOf(s, room)|] == w;
      } else {
        assert Known(s.issued, x);
      }
    }
  }

  lemma EnqueueKeeps(c: Limits, s: Pool, room: string, reserved: bool)
    requires ValidLimits(c) && Inv(c, s) && s.waiting < AdmissionBound(c, reserved) && !s.closed
    ensures Inv(c, Enqueue(s, room, reserved))
  {
    EnqueueQueues(s, room, reserved);
    EnqueuePromises(s, room, reserved);
  }

  lemma QueueOkWithout(issued: seq<Waiter>, r: string, q: seq<Waiter>, k: nat)
    requires k < |q| && QueueOk(issued, r, q)
    ensures QueueOk(issued, r, Without(q, k))
    ensures forall x :: x in Without(q, k) <==> x != q[k] && x in q
  {
    forall x | x in q && x != q[k] ensures x in Without(q, k) {
      var i :| 0 <= i < |q| && q[i] == x;
      assert Without(q, k)[if i < k then i else i - 1] == x;
    }
  }

  /** Taking position `k` out of the queue of waiter `w`. */
  lemma LeaveQueue(s: Pool, s': Pool, w: Waiter, k: nat)
    requires QueuesInv(s) && k < |QueueOf(s, w.room)| && w == QueueOf(s, w.room)[k]
    requires s'.issued == s.issued && RoomsInv(s')
    requires forall r :: QueueOf(s', r) == if r == w.room then Without(QueueOf(s, w.room), k) else QueueOf(s, r)
    ensures QueuesInv(s')
    ensures forall x :: Waits(s', x) <==> x != w && Waits(s, x)
  {
    QueueOkWithout(s.issued, w.room, QueueOf(s, w.room), k);
  }

  /** Once a waiter has left its queue and its promise is settled, promises and queues agree again. */
  lemma LeftPromises(s: Pool, s': Pool, w: Waiter, o: Outcome)
    requires QueuesInv(s) && PromisesInv(s) && Known(s.issued, w) && Waits(s, w)
    requires s'.issued == s.issued && s'.settled == s.settled[w.id := o]
    requires s'.held == s.held || (o == Granted && s'.held == s.held + {w})
    requires forall x :: Waits(s', x) <==> x != w && Waits(s, x)
    ensures PromisesInv(s') && w.id !in s.settled && w !in s.held
  {
    assert forall x :: Known(s'.issued, x) <==> Known(s.issued, x);
  }

  lemma WithdrawRooms(s: Pool, id: nat)
    requires RoomsInv(s) && IsQueued(s, id)
    ensures RoomsInv(Withdraw(s, id))
  {
    var w := s.issued[id];
    var q := Without(QueueOf(s, w.room), Position(QueueOf(s, w.room), w));
    DeleteValid(s.rooms, w.room);
    SetValid(s.rooms, w.room, q);
    TotalAfterSet(s.rooms, w.room, q);
    TotalAfterDelete(s.rooms, w.room);
  }

  lemma WithdrawQueues(s: Pool, id: nat)
    requires QueuesInv(s) && IsQueued(s, id)
    ensures var w := s.issued[id];
            && QueuesInv(Withdraw(s, id)) && w.id == id && Waits(s, w) && Known(s.issued, w)
            && forall x :: Waits(Withdraw(s, id), x) <==> x != w && Waits(s, x)
  {
    var w := s.issued[id];
    var k := Position(QueueOf(s, w.room), w);
    assert QueueOk(s.issued, w.room, QueueOf(s, w.room));
    assert Known(s.issued, w);
    hide Position, Without, QueueOk, RoomsInv, Total;
    WithdrawRooms(s, id);
    LeaveQueue(s, Withdraw(s, id), w, k);
  }

  lemma WithdrawKeeps(c: Limits, s: Pool, id: nat)
    requires Inv(c, s) && IsQueued(s, id)
    ensures Inv(c, Withdraw(s, id)) && SettledKept(s, Withdraw(s, id))
  {
    hide Position, Without, QueuesInv, PromisesInv;
    WithdrawQueues(s, id);
    LeftPromises(s, Withdraw(s, id), s.issued[id], Rejected);
  }

  lemma GrantRooms(c: Limits, s: Pool)
    requires RoomsInv(s) && CanGrant(c, s)
    ensures RoomsInv(Grant(c, s))
  {
    GrantShrinks(c, s);
  }

  /** The waiter a grant takes and the queues it leaves. */
  lemma GrantQueues(c: Limits, s: Pool)
    requires QueuesInv(s) && CanGrant(c, s)
    ensures QueuesInv(Grant(c, s))
    ensures var w := NextWaiter(c, s);
            && w.room == NextRoom(c, s) && Waits(s, w) && Known(s.issued, w)
            && forall x :: Waits(Grant(c, s), x) <==> x != w && Waits(s, x)
  {
    var w := NextWaiter(c, s);
    assert w in QueueOf(s, NextRoom(c, s));
    assert QueueOk(s.issued, NextRoom(c, s), QueueOf(s, NextRoom(c, s)));
    GrantRooms(c, s);
    hide CanGrant, Without, QueueOk, RoomsInv;
    LeaveQueue(s, Grant(c, s), w, NextIndex(c, s));
  }

  lemma GrantCaps(c: Limits, s: Pool)
    requires CapsInv(c, s) && CanGrant(c, s) && NextWaiter(c, s).room == NextRoom(c, s)
    ensures CapsInv(c, Grant(c, s))
  {
    var s', w := Grant(c, s), NextWaiter(c, s);
    forall r ensures Tally(s'.activeRooms, r) <= c.perRoom && Tally(s'.generalRooms, r) <= RoomGeneralCap(c) {
      assert r != w.room ==> Tally(s'.activeRooms, r) == Tally(s.activeRooms, r);
      assert r != w.room || w.reserved ==> Tally(s'.generalRooms, r) == Tally(s.generalRooms, r);
    }
  }

  lemma GrantCounts(c: Limits, s: Pool)
    requires LeasesInv(s) && CanGrant(c, s)
    requires NextWaiter(c, s) !in s.held && NextWaiter(c, s).room == NextRoom(c, s)
    ensures LeasesInv(Grant(c, s))
  {
    var w := NextWaiter(c, s);
    HoldOne(s.held, w);
    CountsAdd(s.activeRooms, s.held, w);
    if !w.reserved {
      CountsAdd(s.generalRooms, General(s.held), w);
    }
  }

  lemma GrantKeeps(c: Limits, s: Pool)
    requires Inv(c, s) && CanGrant(c, s)
    ensures Inv(c, Grant(c, s)) && SettledKept(s, Grant(c, s))
  {
    GrantQueues(c, s);
    GrantCaps(c, s);
    LeftPromises(s, Grant(c, s), NextWaiter(c, s), Granted);
    GrantCounts(c, s);
  }

  lemma ReturnCounts(s: Pool, w: Waiter)
    requires LeasesInv(s) && w in s.held
    ensures LeasesInv(Return(s, w))
    ensures forall r :: Tally(Return(s, w).activeRooms, r) <= Tally(s.activeRooms, r)
    ensures forall r :: Tally(Return(s, w).generalRooms, r) <= Tally(s.generalRooms, r)
  {
    CountsSubtract(s.activeRooms, s.held, w);
    assert General(s.held - {w}) == General(s.held) - {w};
    if w.reserved {
      assert General(s.held - {w}) == General(s.held);
    } else {
      CountsSubtract(s.generalRooms, General(s.held), w);
    }
  }

  lemma ReturnKeeps(c: Limits, s: Pool, w: Waiter)
    requires Inv(c, s) && w in s.held
    ensures Inv(c, Return(s, w))
  {
    var s' := Return(s, w);
    ReturnCounts(s, w);
    assert forall r :: QueueOf(s', r) == QueueOf(s, r);
    assert forall x :: Known(s'.issued, x) <==> Known(s.issued, x);
    assert QueuesInv(s');
    assert PromisesInv(s') by {
      assert forall x :: Waits(s', x) <==> Waits(s, x);
    }
  }

  lemma ShutKeeps(c: Limits, s: Pool)
    requires ValidLimits(c) && Inv(c, s)
    ensures Inv(c, Shut(s)) && SettledKept(s, Shut(s))
  {
  }

  lemma {:induction false} DrainKeeps(c: Limits, s: Pool)
    requires Inv(c, s)
    ensures Inv(c, Drain(c, s)) && !CanGrant(c, Drain(c, s))
    ensures SettledKept(s, Drain(c, s)) && Drain(c, s).closed == s.closed && Drain(c, s).issued == s.issued
    decreases Queued(s)
  {
    if CanGrant(c, s) {
      GrantKeeps(c, s);
      GrantShrinks(c, s);
      DrainKeeps(c, Grant(c, s));
    }
  }

  lemma ApplyKeeps(c: Limits, s: Pool, op: Op)
    requires ValidLimits(c) && Inv(c, s) && !CanGrant(c, s)
    ensures Inv(c, Apply(c, s, op)) && !CanGrant(c, Apply(c, s, op)) && SettledKept(s, Apply(c, s, op))
  {
    match op
    case OpAcquire(room, aborted, reserved) =>
      if Admission(c, s, aborted, reserved) == Accepted {
        EnqueueKeeps(c, s, room, reserved);
        DrainKeeps(c, Enqueue(s, room, reserved));
      }
    case OpCancel(id) =>
      if IsQueued(s, id) {
        WithdrawKeeps(c, s, id);
        DrainKeeps(c, Withdraw(s, id));
      }
    case OpRelease(w) =>
      if w in s.held {
        ReturnKeeps(c, s, w);
        DrainKeeps(c, Return(s, w));
      }
    case OpClose => ShutKeeps(c, s);
  }

  /** Over every history of acquire, cancel, release and close: counters and caps are right and,
      while the pool is open, no eligible waiter waits beside a free slot. */
  lemma {:induction false} RunInv(c: Limits, ops: seq<Op>)
    requires ValidLimits(c)
    ensures Inv(c, Run(c, ops)) && !CanGrant(c, Run(c, ops))
  {
    if ops != [] {
      RunInv(c, ops[..|ops| - 1]);
      ApplyKeeps(c, Run(c, ops[..|ops| - 1]), ops[|ops| - 1]);
    }
  }

  /** What rest means: an open pool with a free slot has no waiter that may use it. */
  lemma NothingLeftWaiting(c: Limits, ops: seq<Op>, w: Waiter)
    requires ValidLimits(c)
    ensures var s := Run(c, ops);
            !s.closed && s.active < c.limit && w in QueueOf(s, w.room) ==> !Eligible(c, s, w)
  {
    RunInv(c, ops);
    var s := Run(c, ops);
    if !s.closed && s.active < c.limit && w in QueueOf(s, w.room) {
      assert s.rooms.keys[IndexOf(s.rooms.keys, w.room)] == w.room;
    }
  }

  /** No later operation resolves or rejects a promise a second time or changes its outcome,
      and releasing a lease that is not out changes nothing at all. */
  lemma SettledOnce(c: Limits, s: Pool, op: Op)
    requires ValidLimits(c) && Inv(c, s) && !CanGrant(c, s)
    ensures SettledKept(s, Apply(c, s, op))
    ensures op.OpRelease? && op.lease !in s.held ==> Apply(c, s, op) == s
  {
    ApplyKeeps(c, s, op);
  }
}
