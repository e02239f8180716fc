/** What the limits of a pool mean. */
module CapacityCaps {
  // The limits of the capacity pool in terms of the leases that are out and the promises still pending alone: none of
  // the pool's counters, queues or conditions occurs in what is proved here.

  import opened JsMap
  import opened CapacitySpec
  import opened CapacityAccounting

  /** The promise is neither resolved nor rejected. */
  predicate Pending(s: Pool, w: Waiter) {
    w.id < |s.issued| && s.issued[w.id] == w && w.id !in s.settled
  }

  /** How many places of a room ordinary work can have: all but one, unless nothing is reserved or there is only one. */
  function OrdinaryPlaces(c: Limits): int {
    if c.reserved == 0 || c.perRoom == 1 then c.perRoom else c.perRoom - 1
  }

  /** The leases that are out stay within the limit, the room and the share of ordinary work. */
  ghost predicate LeasesFit(c: Limits, held: set<Waiter>) {
    && |held| <= c.limit && |General(held)| <= c.limit - c.reserved
    && (forall r :: |InRoom(held, r)| <= c.perRoom)
    && (forall r :: |InRoom(General(held), r)| <= OrdinaryPlaces(c))
  }

  /** One of the limits is reached for this waiter. */
  ghost predicate HasToWait(c: Limits, held: set<Waiter>, w: Waiter) {
    || |held| == c.limit
    || |InRoom(held, w.room)| == c.perRoom
    || (!w.reserved && |General(held)| == c.limit - c.reserved)
    || (!w.reserved && |InRoom(General(held), w.room)| == OrdinaryPlaces(c))
  }

  lemma CapsMean(c: Limits, s: Pool)
    requires ValidLimits(c) && Inv(c, s)
    ensures LeasesFit(c, s.held)
  {
    hide QueuesInv, PromisesInv;
    forall r ensures |InRoom(s.held, r)| <= c.perRoom && |InRoom(General(s.held), r)| <= OrdinaryPlaces(c) {
      assert Tally(s.activeRooms, r) <= c.perRoom && Tally(s.generalRooms, r) <= RoomGeneralCap(c);
    }
  }

  lemma RestMeans(c: Limits, s: Pool, w: Waiter)
    requires ValidLimits(c) && Inv(c, s) && !CanGrant(c, s) && !s.closed && Pending(s, w)
    ensures HasToWait(c, s.held, w)
  {
    CapsMean(c, s);
    assert Waits(s, w) by { assert Known(s.issued, w); }
    hide QueuesInv, PromisesInv, General, InRoom;
    if s.active < c.limit {
      NotEligible(c, s, w);
    }
  }

  lemma NotEligible(c: Limits, s: Pool, w: Waiter)
    requires QueuesInv(s) && !CanGrant(c, s) && !s.closed && s.active < c.limit && Waits(s, w)
    ensures !Eligible(c, s, w)
  {
    assert s.rooms.keys[IndexOf(s.rooms.keys, w.room)] == w.room;
  }

  /**
   * Over every history, the leases fit the limits, and a promise of an open pool is pending only if one of them is
   * reached for it: the limit, its room, the share of ordinary work or its room's share of that.
   */
  lemma PendingOnlyWhenFull(c: Limits, ops: seq<Op>, w: Waiter)
    requires ValidLimits(c)
    ensures LeasesFit(c, Run(c, ops).held)
    ensures !Run(c, ops).closed && Pending(Run(c, ops), w) ==> HasToWait(c, Run(c, ops).held, w)
  {
    RunInv(c, ops);
    hide Run, Inv, CanGrant, Pending;
    CapsMean(c, Run(c, ops));
    if !Run(c, ops).closed && Pending(Run(c, ops), w) {
      RestMeans(c, Run(c, ops), w);
    }
  }

  // ----- Arrivals -----

  /** The pending promises, and the ordinary ones among them. */
  function PendingIds(s: Pool): set<nat> {
    set i: nat | i < |s.issued| && i !in s.settled
  }

  function OrdinaryIds(s: Pool): set<nat> {
    set i: nat | i < |s.issued| && i !in s.settled && !s.issued[i].reserved
  }

  /** How many ordinary promises may be pending: the rest of the queue is kept for nested work, but never all of it. */
  function OrdinaryQueue(c: Limits): int {
    if c.maxWaiting > c.reserved then c.maxWaiting - c.reserved else 1
  }

  ghost predicate QueueFits(c: Limits, s: Pool) {
    |PendingIds(s)| == s.waiting && |OrdinaryIds(s)| <= OrdinaryQueue(c)
  }

  lemma SmallerSet(a: set<nat>, b: set<nat>)
    requires a <= b
    ensures |a| <= |b|
  {
    assert b == a + (b - a);
  }

  /** A promise settled on the way out of the queue. */
  lemma OneLess(c: Limits, s: Pool, s': Pool, id: nat, o: Outcome)
    requires QueueFits(c, s) && id in PendingIds(s)
    requires s'.issued == s.issued && s'.settled == s.settled[id := o] && s'.waiting == s.waiting - 1
    ensures QueueFits(c, s')
  {
    assert PendingIds(s') == PendingIds(s) - {id};
    SmallerSet(OrdinaryIds(s'), OrdinaryIds(s));
  }

  lemma EnqueueIds(s: Pool, room: string, reserved: bool)
    requires forall i :: i in s.settled ==> i < |s.issued|
    ensures var s' := Enqueue(s, room, reserved);
            && PendingIds(s') == PendingIds(s) + {|s.issued|}
            && OrdinaryIds(s') == if reserved then OrdinaryIds(s) else OrdinaryIds(s) + {|s.issued|}
  {
    hide Set, QueueOf;
  }

  lemma EnqueueFits(c: Limits, s: Pool, room: string, reserved: bool)
    requires QueueFits(c, s) && PromisesInv(s) && s.waiting < AdmissionBound(c, reserved) && ValidLimits(c)
    ensures QueueFits(c, Enqueue(s, room, reserved))
  {
    EnqueueIds(s, room, reserved);
    assert |s.issued| !in PendingIds(s);
    SmallerSet(OrdinaryIds(s), PendingIds(s));
    hide PromisesInv, PendingIds, OrdinaryIds, Set, QueueOf;
  }

  lemma GrantFits(c: Limits, s: Pool)
    requires Inv(c, s) && CanGrant(c, s) && QueueFits(c, s)
    ensures QueueFits(c, Grant(c, s))
  {
    var w := NextWaiter(c, s);
    GrantQueues(c, s);
    LeftPromises(s, Grant(c, s), w, Granted);
    hide Inv, QueuesInv, PromisesInv, CanGrant, NextWaiter, QueueFits, PendingIds;
    assert w.id in PendingIds(s) by { PendingId(s, w); }
    OneLess(c, s, Grant(c, s), w.id, Granted);
  }

  lemma PendingId(s: Pool, w: Waiter)
    requires Known(s.issued, w) && w.id !in s.settled
    ensures w.id in PendingIds(s)
  {
  }

  lemma {:induction false} DrainFits(c: Limits, s: Pool)
    requires Inv(c, s) && QueueFits(c, s)
    ensures QueueFits(c, Drain(c, s))
    decreases Queued(s)
  {
    hide Inv, QueueFits, CanGrant, Grant;
    InvValid(c, s);
    if CanGrant(c, s) {
      GrantKeeps(c, s);
      GrantShrinks(c, s);
      GrantFits(c, s);
      DrainFits(c, Grant(c, s));
    }
  }

  lemma InvValid(c: Limits, s: Pool)
    requires Inv(c, s)
    ensures ValidMap(s.rooms)
  {
  }

  lemma WithdrawFits(c: Limits, s: Pool, id: nat)
    requires Inv(c, s) && IsQueued(s, id) && QueueFits(c, s)
    ensures QueueFits(c, Withdraw(s, id))
  {
    WithdrawQueues(s, id);
    LeftPromises(s, Withdraw(s, id), s.issued[id], Rejected);
    hide Inv, QueuesInv, PromisesInv, QueueFits, PendingIds;
    assert id in PendingIds(s) by { PendingId(s, s.issued[id]); }
    OneLess(c, s, Withdraw(s, id), id, Rejected);
  }

  lemma ShutFits(c: Limits, s: Pool)
    requires ValidLimits(c)
    ensures QueueFits(c, Shut(s))
  {
    assert PendingIds(Shut(s)) == {} && OrdinaryIds(Shut(s)) == {};
  }

  lemma ReturnFits(c: Limits, s: Pool, w: Waiter)
    requires w in s.held && QueueFits(c, s)
    ensures QueueFits(c, Return(s, w))
  {
    assert PendingIds(Return(s, w)) == PendingIds(s) && OrdinaryIds(Return(s, w)) == OrdinaryIds(s);
  }

  lemma ApplyFits(c: Limits, s: Pool, op: Op)
    requires ValidLimits(c) && Inv(c, s) && QueueFits(c, s)
    ensures QueueFits(c, Apply(c, s, op))
  {
    InvValid(c, s);
    assert PromisesInv(s);
    hide Inv, QueueFits, PromisesInv, Drain, Enqueue, Withdraw, Return, Shut, IsQueued, ValidLimits;
    match op
    case OpAcquire(room, aborted, reserved) =>
      if Admission(c, s, aborted, reserved) == Accepted {
        EnqueueKeeps(c, s, room, reserved);
        EnqueueFits(c, s, room, reserved);
        DrainFits(c, Enqueue(s, room, reserved));
      }
    case OpCancel(id) =>
      if IsQueued(s, id) {
        WithdrawKeeps(c, s, id);
        WithdrawFits(c, s, id);
        DrainFits(c, Withdraw(s, id));
      }
    case OpRelease(w) =>
      if w in s.held {
        ReturnKeeps(c, s, w);
        ReturnFits(c, s, w);
        DrainFits(c, Return(s, w));
      }
    case OpClose => ShutFits(c, s);
  }

  lemma {:induction false} RunFits(c: Limits, ops: seq<Op>)
    requires ValidLimits(c)
    ensures QueueFits(c, Run(c, ops))
  {
    hide Inv, QueueFits, CanGrant, Apply;
    if ops == [] {
      NoneFits(c);
    } else {
      RunInv(c, ops[..|ops| - 1]);
      RunFits(c, ops[..|ops| - 1]);
      ApplyFits(c, Run(c, ops[..|ops| - 1]), ops[|ops| - 1]);
    }
  }

  lemma NoneFits(c: Limits)
    requires ValidLimits(c)
    ensures QueueFits(c, Empty())
  {
    assert PendingIds(Empty()) == {} && OrdinaryIds(Empty()) == {};
  }

  /**
   * Which answer an arrival gets, over every history: the queue is full for nested work when `maxWaiting` promises
   * are pending, and for ordinary work when the part of it that is not kept for nested work would be exceeded.
   */
  lemma ArrivalExactly(c: Limits, ops: seq<Op>, aborted: bool, nested: bool)
    requires ValidLimits(c)
    ensures var s := Run(c, ops);
            var full := |PendingIds(s)| >= if nested then c.maxWaiting else OrdinaryQueue(c);
            Admission(c, s, aborted, nested)
            == if s.closed then PoolClosed else if aborted then Aborted else if full then QueueFull else Accepted
  {
    RunFits(c, ops);
    hide Run, PendingIds, OrdinaryIds;
  }

  /** So ordinary work alone never fills the queue: nested work is refused only if nested work is waiting, too. */
  lemma NestedRefusedByNested(c: Limits, ops: seq<Op>)
    requires ValidLimits(c) && Admission(c, Run(c, ops), false, true) == QueueFull
    ensures |PendingIds(Run(c, ops)) - OrdinaryIds(Run(c, ops))|
         >= if c.maxWaiting > c.reserved then c.reserved else c.maxWaiting - 1
  {
    RunFits(c, ops);
    var s := Run(c, ops);
    hide Run;
    var nested := PendingIds(s) - OrdinaryIds(s);
    assert PendingIds(s) == OrdinaryIds(s) + nested;
  }

  // ----- How promises end -----

  /** The promises that were resolved are those of the leases ever granted. */
  ghost predicate GrantsOk(s: Pool) {
    && (forall w <- s.grants :: Known(s.issued, w) && w.id in s.settled && s.settled[w.id] == Granted)
    && (forall i <- s.settled :: i < |s.issued| && (s.settled[i] == Granted ==> s.issued[i] in s.grants))
  }

  lemma SettledOnTheWay(s: Pool, s': Pool, w: Waiter, o: Outcome)
    requires GrantsOk(s) && Known(s.issued, w) && w.id !in s.settled
    requires s'.issued == s.issued && s'.settled == s.settled[w.id := o]
    requires s'.grants == if o == Granted then s.grants + [w] else s.grants
    ensures GrantsOk(s')
  {
    assert w in s.grants + [w];
  }

  lemma EnqueueGrants(s: Pool, room: string, reserved: bool)
    requires GrantsOk(s)
    ensures GrantsOk(Enqueue(s, room, reserved))
  {
    hide Set, QueueOf;
  }

  lemma GrantGrants(c: Limits, s: Pool)
    requires Inv(c, s) && CanGrant(c, s) && GrantsOk(s)
    ensures GrantsOk(Grant(c, s))
  {
    var w := NextWaiter(c, s);
    GrantQueues(c, s);
    LeftPromises(s, Grant(c, s), w, Granted);
    hide Inv, QueuesInv, PromisesInv, CanGrant, NextWaiter, GrantsOk;
    SettledOnTheWay(s, Grant(c, s), w, Granted);
  }

  lemma {:induction false} DrainGrants(c: Limits, s: Pool)
    requires Inv(c, s) && GrantsOk(s)
    ensures GrantsOk(Drain(c, s))
    decreases Queued(s)
  {
    hide Inv, GrantsOk, CanGrant, Grant;
    InvValid(c, s);
    if CanGrant(c, s) {
      GrantKeeps(c, s);
      GrantShrinks(c, s);
      GrantGrants(c, s);
      DrainGrants(c, Grant(c, s));
    }
  }

  lemma WithdrawGrants(c: Limits, s: Pool, id: nat)
    requires Inv(c, s) && IsQueued(s, id) && GrantsOk(s)
    ensures GrantsOk(Withdraw(s, id))
  {
    WithdrawQueues(s, id);
    LeftPromises(s, Withdraw(s, id), s.issued[id], Rejected);
    hide Inv, QueuesInv, PromisesInv, GrantsOk;
    SettledOnTheWay(s, Withdraw(s, id), s.issued[id], Rejected);
  }

  lemma ApplyGrants(c: Limits, s: Pool, op: Op)
    requires ValidLimits(c) && Inv(c, s) && GrantsOk(s)
    ensures GrantsOk(Apply(c, s, op))
  {
    InvValid(c, s);
    hide Inv, GrantsOk, Drain, Enqueue, Withdraw, Return, Shut, IsQueued, ValidLimits;
    match op
    case OpAcquire(room, aborted, reserved) =>
      if Admission(c, s, aborted, reserved) == Accepted {
        EnqueueKeeps(c, s, room, reserved);
        EnqueueGrants(s, room, reserved);
        DrainGrants(c, Enqueue(s, room, reserved));
      }
    case OpCancel(id) =>
      if IsQueued(s, id) {
        WithdrawKeeps(c, s, id);
        WithdrawGrants(c, s, id);
        DrainGrants(c, Withdraw(s, id));
      }
    case OpRelease(w) =>
      if w in s.held {
        ReturnKeeps(c, s, w);
        ReturnGrants(s, w);
        DrainGrants(c, Return(s, w));
      }
    case OpClose => ShutGrants(s);
  }

  lemma ReturnGrants(s: Pool, w: Waiter)
    requires w in s.held && GrantsOk(s)
    ensures GrantsOk(Return(s, w))
  {
  }

  lemma ShutGrants(s: Pool)
    requires GrantsOk(s)
    ensures GrantsOk(Shut(s))
  {
  }

  lemma {:induction false} RunGrants(c: Limits, ops: seq<Op>)
    requires ValidLimits(c)
    ensures GrantsOk(Run(c, ops))
  {
    hide Inv, CanGrant, Apply;
    if ops != [] {
      hide GrantsOk;
      RunInv(c, ops[..|ops| - 1]);
      RunGrants(c, ops[..|ops| - 1]);
      ApplyGrants(c, Run(c, ops[..|ops| - 1]), ops[|ops| - 1]);
    }
  }

  /** Over every history a promise is resolved exactly if its lease was granted, and otherwise pending or rejected. */
  lemma ResolvedExactly(c: Limits, ops: seq<Op>, i: nat)
    requires ValidLimits(c) && i < |Run(c, ops).issued|
    ensures var s := Run(c, ops); i in s.settled && s.settled[i] == Granted <==> s.issued[i] in s.grants
  {
    RunGrants(c, ops);
    RunInv(c, ops);
    IssuedKnown(c, Run(c, ops), i);
    hide Run, Inv;
  }

  lemma IssuedKnown(c: Limits, s: Pool, i: nat)
    requires Inv(c, s) && i < |s.issued|
    ensures s.issued[i].id == i
  {
    hide PromisesInv, LeasesInv, CapsInv;
  }

  /** Closing rejects every promise still pending, and takes no lease back. */
  lemma ClosingRejects(c: Limits, ops: seq<Op>, i: nat)
    requires ValidLimits(c) && i < |Run(c, ops).issued|
    ensures var s, s' := Run(c, ops), Run(c, ops + [OpClose]);
            && s'.closed && s'.held == s.held && s'.grants == s.grants && i in s'.settled
            && s'.settled[i] == if i in s.settled then s.settled[i] else Rejected
  {
    CloseIs(c, ops);
    hide Run, Shut;
    ShutSettles(Run(c, ops), i);
  }

  lemma CloseIs(c: Limits, ops: seq<Op>)
    ensures Run(c, ops + [OpClose]) == Shut(Run(c, ops))
  {
    hide Shut;
    assert (ops + [OpClose])[..|ops|] == ops;
  }

  lemma ShutSettles(s: Pool, i: nat)
    requires i < |s.issued|
    ensures var s' := Shut(s);
            && s'.closed && s'.held == s.held && s'.grants == s.grants && i in s'.settled
            && s'.settled[i] == if i in s.settled then s.settled[i] else Rejected
  {
  }
}
