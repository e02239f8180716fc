/** Fairness of the capacity pool. */
module CapacityFairness {
  // Arrival order inside a room, round robin between rooms, and exactly when nested
  // work can always make progress.

  import opened JsMap
  import opened CapacitySpec
  import opened CapacityAccounting
  import opened CapacityCaps

  // ----- Inside a room: arrival order -----

  /** A lease granted earlier also arrived earlier, unless nested work overtook ordinary work. */
  ghost predicate LogOrdered(grants: seq<Waiter>) {
    forall i, j :: 0 <= i < j < |grants| && grants[i].room == grants[j].room
                   && (grants[j].reserved || !grants[i].reserved)
                   ==> grants[i].id < grants[j].id
  }

  /** What has been granted arrived before what still waits, with the same exception. */
  ghost predicate QueueBehindLog(grants: seq<Waiter>, q: seq<Waiter>) {
    forall g, w :: g in grants && w in q && g.room == w.room && (w.reserved || !g.reserved) ==> g.id < w.id
  }

  ghost predicate ArrivalOrder(s: Pool) {
    && LogOrdered(s.grants)
    && (forall g :: g in s.grants ==> g.id < |s.issued|)
    && (forall r :: QueueBehindLog(s.grants, QueueOf(s, r)))
  }

  /** Everyone a grant passes over in the room is ordinary work, and then the lease is nested work. */
  lemma PassedOver(c: Limits, s: Pool, j: nat)
    requires QueuesInv(s) && CanGrant(c, s) && j < NextIndex(c, s)
    ensures !QueueOf(s, NextRoom(c, s))[j].reserved && NextWaiter(c, s).reserved
  {
    var q := QueueOf(s, NextRoom(c, s));
    assert QueueOk(s.issued, NextRoom(c, s), q);
    assert q[j] in q && NextWaiter(c, s) in q;
    assert !Eligible(c, s, q[j]);
  }

  lemma LogPush(issued: seq<Waiter>, grants: seq<Waiter>, r: string, q: seq<Waiter>, k: nat)
    requires QueueOk(issued, r, q) && QueueBehindLog(grants, q) && k < |q|
    requires forall j :: 0 <= j < k ==> !q[j].reserved && q[k].reserved
    ensures QueueBehindLog(grants + [q[k]], Without(q, k))
  {
    var w := q[k];
    QueueOkWithout(issued, r, q, k);
    forall x | x in Without(q, k) && (x.reserved || !w.reserved) ensures w.id < x.id {
      var j :| 0 <= j < |q| && q[j] == x;
    }
  }

  lemma LogPushOther(issued: seq<Waiter>, grants: seq<Waiter>, r: string, q: seq<Waiter>, w: Waiter)
    requires QueueOk(issued, r, q) && QueueBehindLog(grants, q) && w.room != r
    ensures QueueBehindLog(grants + [w], q)
  {
  }

  lemma LogOrderedPush(grants: seq<Waiter>, q: seq<Waiter>, w: Waiter)
    requires LogOrdered(grants) && QueueBehindLog(grants, q) && w in q
    ensures LogOrdered(grants + [w])
  {
  }

  lemma GrantBehindLog(c: Limits, s: Pool, r: string)
    requires QueuesInv(s) && CanGrant(c, s)
    requires QueueBehindLog(s.grants, QueueOf(s, r)) && NextWaiter(c, s).room == NextRoom(c, s)
    ensures QueueBehindLog(Grant(c, s).grants, QueueOf(Grant(c, s), r))
  {
    var w, q, k := NextWaiter(c, s), QueueOf(s, r), NextIndex(c, s);
    assert QueueOk(s.issued, r, q);
    if r == w.room {
      forall j | 0 <= j < k ensures !q[j].reserved && w.reserved { PassedOver(c, s, j); }
      LogPush(s.issued, s.grants, r, q, k);
    } else {
      LogPushOther(s.issued, s.grants, r, q, w);
    }
  }

  lemma GrantKeepsOrder(c: Limits, s: Pool)
    requires QueuesInv(s) && ArrivalOrder(s) && CanGrant(c, s)
    ensures ArrivalOrder(Grant(c, s))
  {
    var w := NextWaiter(c, s);
    GrantQueues(c, s);
    forall r ensures QueueBehindLog(Grant(c, s).grants, QueueOf(Grant(c, s), r)) {
      GrantBehindLog(c, s, r);
    }
    LogOrderedPush(s.grants, QueueOf(s, w.room), w);
  }

  lemma {:induction false} DrainKeepsOrder(c: Limits, s: Pool)
    requires Inv(c, s) && ArrivalOrder(s)
    ensures ArrivalOrder(Drain(c, s))
    decreases Queued(s)
  {
    if CanGrant(c, s) {
      GrantKeeps(c, s);
      GrantKeepsOrder(c, s);
      GrantShrinks(c, s);
      DrainKeepsOrder(c, Grant(c, s));
    }
  }

  lemma EnqueueKeepsOrder(s: Pool, room: string, reserved: bool)
    requires ArrivalOrder(s)
    ensures ArrivalOrder(Enqueue(s, room, reserved))
  {
    var s' := Enqueue(s, room, reserved);
    forall r ensures QueueBehindLog(s'.grants, QueueOf(s', r)) {
      assert QueueBehindLog(s.grants, QueueOf(s, r));
    }
  }

  lemma WithdrawKeepsOrder(s: Pool, id: nat)
    requires QueuesInv(s) && ArrivalOrder(s) && IsQueued(s, id)
    ensures ArrivalOrder(Withdraw(s, id))
  {
    var s', w := Withdraw(s, id), s.issued[id];
    assert QueueOk(s.issued, w.room, QueueOf(s, w.room));
    QueueOkWithout(s.issued, w.room, QueueOf(s, w.room), Position(QueueOf(s, w.room), w));
    forall r ensures QueueBehindLog(s'.grants, QueueOf(s', r)) {
      assert QueueBehindLog(s.grants, QueueOf(s, r));
    }
  }

  lemma SameQueuesKeepOrder(s: Pool, s': Pool)
    requires ArrivalOrder(s) && s'.grants == s.grants && s'.issued == s.issued
    requires forall r :: QueueOf(s', r) == QueueOf(s, r) || QueueOf(s', r) == []
    ensures ArrivalOrder(s')
  {
    forall r ensures QueueBehindLog(s'.grants, QueueOf(s', r)) {
      assert QueueBehindLog(s.grants, QueueOf(s, r));
    }
  }

  lemma ApplyKeepsOrder(c: Limits, s: Pool, op: Op)
    requires ValidLimits(c) && Inv(c, s) && ArrivalOrder(s)
    ensures ArrivalOrder(Apply(c, s, op))
  {
    match op
    case OpAcquire(room, aborted, reserved) =>
      if Admission(c, s, aborted, reserved) == Accepted {
        EnqueueKeeps(c, s, room, reserved);
        EnqueueKeepsOrder(s, room, reserved);
        DrainKeepsOrder(c, Enqueue(s, room, reserved));
      }
    case OpCancel(id) =>
      if IsQueued(s, id) {
        WithdrawKeeps(c, s, id);
        WithdrawKeepsOrder(s, id);
        DrainKeepsOrder(c, Withdraw(s, id));
      }
    case OpRelease(w) =>
      if w in s.held {
        ReturnKeeps(c, s, w);
        SameQueuesKeepOrder(s, Return(s, w));
        DrainKeepsOrder(c, Return(s, w));
      }
    case OpClose =>
      SameQueuesKeepOrder(s, Shut(s));
  }

  /** Over every history: inside a room, leases of one class go out in order of arrival, and no
      later arrival of either class gets its lease before a nested waiter. */
  lemma {:induction false} FirstComeFirstServed(c: Limits, ops: seq<Op>)
    requires ValidLimits(c)
    ensures ArrivalOrder(Run(c, ops))
  {
    if ops != [] {
      var before := ops[..|ops| - 1];
      FirstComeFirstServed(c, before);
      RunInv(c, before);
      ApplyKeepsOrder(c, Run(c, before), ops[|ops| - 1]);
    }
  }

  // ----- Between rooms: round robin -----

  datatype Step =
    | StepEnqueue(room: string, reserved: bool)
    | StepWithdraw(id: nat)
    | StepReturn(lease: Waiter)
    | StepGrant

  predicate Enabled(c: Limits, s: Pool, t: Step) {
    match t
    case StepEnqueue(_, reserved) => !s.closed && s.waiting < AdmissionBound(c, reserved)
    case StepWithdraw(id) => IsQueued(s, id)
    case StepReturn(w) => w in s.held
    case StepGrant => CanGrant(c, s)
  }

  function Take(c: Limits, s: Pool, t: Step): Pool
    requires Enabled(c, s, t)
  {
    match t
    case StepEnqueue(room, reserved) => Enqueue(s, room, reserved)
    case StepWithdraw(id) => Withdraw(s, id)
    case StepReturn(w) => Return(s, w)
    case StepGrant => Grant(c, s)
  }

  predicate CanTakeAll(c: Limits, s: Pool, ts: seq<Step>)
    decreases |ts|
  {
    ts == [] || (Enabled(c, s, ts[0]) && CanTakeAll(c, Take(c, s, ts[0]), ts[1..]))
  }

  function TakeAll(c: Limits, s: Pool, ts: seq<Step>): Pool
    requires CanTakeAll(c, s, ts)
    decreases |ts|
  {
    if ts == [] then s else TakeAll(c, Take(c, s, ts[0]), ts[1..])
  }

  /** The place of a room in the rotation. */
  function Rank(s: Pool, r: string): int {
    IndexOf(s.rooms.keys, r)
  }

  predicate RoomEligible(c: Limits, s: Pool, r: string) {
    FirstEligible(c, s, QueueOf(s, r)) >= 0
  }

  lemma RankAfterDelete(keys: seq<string>, x: string, r: string)
    requires Distinct(keys) && r in keys && x != r
    ensures IndexOf(RemoveKey(keys, x), r)
         == IndexOf(keys, r) - if 0 <= IndexOf(keys, x) < IndexOf(keys, r) then 1 else 0
  {
    var i, p, keys' := IndexOf(keys, x), IndexOf(keys, r), RemoveKey(keys, x);
    RemoveKeyMembers(keys, x);
    assert keys'[if 0 <= i < p then p - 1 else p] == r;
  }

  lemma RankAfterAppend(keys: seq<string>, x: string, r: string)
    requires r in keys
    ensures IndexOf(keys + [x], r) == IndexOf(keys, r)
  {
    assert (keys + [x])[IndexOf(keys, r)] == r;
  }

  /** A grant to another room never sends a waiting room back, and moves it up by exactly one
      if the room could have been served. */
  lemma GrantMovesUp(c: Limits, s: Pool, r: string)
    requires QueuesInv(s) && CanGrant(c, s) && r in s.rooms.vals && NextRoom(c, s) != r
    ensures r in Grant(c, s).rooms.vals
    ensures Rank(Grant(c, s), r) <= Rank(s, r)
    ensures RoomEligible(c, s, r) ==> Rank(Grant(c, s), r) == Rank(s, r) - 1
  {
    var x := NextRoom(c, s);
    NextRoomRank(c, s);
    hide IndexOf, RemoveKey, CanGrant, FirstRoom, NextIndex, NextWaiter, Without, Eligible, QueuesInv;
    RankAfterDelete(s.rooms.keys, x, r);
    RemoveKeyMembers(s.rooms.keys, x);
    RankAfterAppend(RemoveKey(s.rooms.keys, x), x, r);
  }

  /** The room served is the first one with an eligible waiter. */
  lemma NextRoomRank(c: Limits, s: Pool)
    requires QueuesInv(s) && CanGrant(c, s)
    ensures ValidMap(s.rooms) && NextRoom(c, s) in s.rooms.vals && Rank(s, NextRoom(c, s)) >= 0
    ensures forall r :: r in s.rooms.vals && RoomEligible(c, s, r) ==> Rank(s, NextRoom(c, s)) <= Rank(s, r)
  {
    assert Rank(s, NextRoom(c, s)) == FirstRoom(c, s, s.rooms.keys);
  }

  lemma WithdrawMovesUp(s: Pool, id: nat, r: string)
    requires ValidMap(s.rooms) && IsQueued(s, id) && r in s.rooms.vals
    requires r in Withdraw(s, id).rooms.vals
    ensures Rank(Withdraw(s, id), r) <= Rank(s, r)
  {
    hide Position, IndexOf, RemoveKey, Without;
    if s.issued[id].room != r {
      RankAfterDelete(s.rooms.keys, s.issued[id].room, r);
    }
  }

  /** No step but a grant to the room itself makes its rank rise while it has a waiter. */
  lemma RankNeverRises(c: Limits, s: Pool, t: Step, r: string)
    requires QueuesInv(s) && Enabled(c, s, t) && r in s.rooms.vals && r in Take(c, s, t).rooms.vals
    requires t.StepGrant? ==> NextRoom(c, s) != r
    ensures Rank(Take(c, s, t), r) <= Rank(s, r) - if t.StepGrant? && RoomEligible(c, s, r) then 1 else 0
  {
    match t
    case StepEnqueue(room, reserved) =>
      if room !in s.rooms.vals {
        RankAfterAppend(s.rooms.keys, room, r);
      }
    case StepWithdraw(id) => WithdrawMovesUp(s, id, r);
    case StepReturn(w) =>
    case StepGrant => GrantMovesUp(c, s, r);
  }

  /** The room has a waiter throughout and none of the grants goes to it. */
  predicate Unserved(c: Limits, s: Pool, ts: seq<Step>, r: string)
    requires CanTakeAll(c, s, ts)
    decreases |ts|
  {
    if ts == [] then r in s.rooms.vals
    else
      && r in s.rooms.vals
      && (ts[0].StepGrant? ==> NextRoom(c, s) != r)
      && Unserved(c, Take(c, s, ts[0]), ts[1..], r)
  }

  /** Grants made to others although the room could have been served. */
  function TimesPassed(c: Limits, s: Pool, ts: seq<Step>, r: string): nat
    requires CanTakeAll(c, s, ts)
    decreases |ts|
  {
    if ts == [] then 0
    else (if ts[0].StepGrant? && RoomEligible(c, s, r) then 1 else 0) + TimesPassed(c, Take(c, s, ts[0]), ts[1..], r)
  }

  lemma TakeKeeps(c: Limits, s: Pool, t: Step)
    requires ValidLimits(c) && Inv(c, s) && Enabled(c, s, t)
    ensures Inv(c, Take(c, s, t))
  {
    match t
    case StepEnqueue(room, reserved) => EnqueueKeeps(c, s, room, reserved);
    case StepWithdraw(id) => WithdrawKeeps(c, s, id);
    case StepReturn(w) => ReturnKeeps(c, s, w);
    case StepGrant => GrantKeeps(c, s);
  }

  /** Bounded waiting: however arrivals, cancellations, releases and grants interleave, a waiting
      room is passed over, while it could be served, at most as often as its rank says. */
  lemma {:induction false} ServedWithinRank(c: Limits, s: Pool, ts: seq<Step>, r: string)
    requires ValidLimits(c) && Inv(c, s) && CanTakeAll(c, s, ts) && Unserved(c, s, ts, r)
    ensures TimesPassed(c, s, ts, r) + Rank(TakeAll(c, s, ts), r) <= Rank(s, r)
    ensures TimesPassed(c, s, ts, r) <= Rank(s, r) < |s.rooms.keys|
    decreases |ts|
  {
    if ts == [] {
    } else {
      var s' := Take(c, s, ts[0]);
      TakeKeeps(c, s, ts[0]);
      assert r in s'.rooms.vals;
      RankNeverRises(c, s, ts[0], r);
      ServedWithinRank(c, s', ts[1..], r);
    }
  }

  /** The grants a drain makes. */
  function DrainSteps(c: Limits, s: Pool): seq<Step>
    requires ValidMap(s.rooms)
    decreases Queued(s)
  {
    if CanGrant(c, s) then
      GrantShrinks(c, s);
      [StepGrant] + DrainSteps(c, Grant(c, s))
    else []
  }

  lemma {:induction false} DrainIsSteps(c: Limits, s: Pool)
    requires ValidMap(s.rooms)
    ensures CanTakeAll(c, s, DrainSteps(c, s)) && TakeAll(c, s, DrainSteps(c, s)) == Drain(c, s)
    decreases Queued(s)
  {
    hide CanGrant, Grant, Queued, ValidMap;
    if CanGrant(c, s) {
      GrantShrinks(c, s);
      DrainIsSteps(c, Grant(c, s));
      assert DrainSteps(c, s)[1..] == DrainSteps(c, Grant(c, s));
    }
  }

  /** Every operation but close is a sequence of these steps, so the bound speaks about operations. */
  lemma OperationsAreSteps(c: Limits, s: Pool, op: Op)
    requires ValidMap(s.rooms) && !op.OpClose?
    ensures exists ts :: CanTakeAll(c, s, ts) && TakeAll(c, s, ts) == Apply(c, s, op)
  {
    StepsValid(s);
    match op
    case OpAcquire(room, aborted, reserved) =>
      if Admission(c, s, aborted, reserved) == Accepted {
        StepThenDrain(c, s, StepEnqueue(room, reserved));
      } else {
        NoSteps(c, s);
      }
    case OpCancel(id) =>
      if IsQueued(s, id) {
        StepThenDrain(c, s, StepWithdraw(id));
      } else {
        NoSteps(c, s);
      }
    case OpRelease(w) =>
      if w in s.held {
        StepThenDrain(c, s, StepReturn(w));
      } else {
        NoSteps(c, s);
      }
  }

  lemma NoSteps(c: Limits, s: Pool)
    ensures exists ts :: CanTakeAll(c, s, ts) && TakeAll(c, s, ts) == s
  {
    var none: seq<Step> := [];
    assert CanTakeAll(c, s, none) && TakeAll(c, s, none) == s;
  }

  lemma StepThenDrain(c: Limits, s: Pool, t: Step)
    requires Enabled(c, s, t) && ValidMap(Take(c, s, t).rooms)
    ensures exists ts :: CanTakeAll(c, s, ts) && TakeAll(c, s, ts) == Drain(c, Take(c, s, t))
  {
    hide Drain, Take, Enabled;
    var s' := Take(c, s, t);
    DrainIsSteps(c, s');
    var ts := [t] + DrainSteps(c, s');
    assert ts[1..] == DrainSteps(c, s');
    assert CanTakeAll(c, s, ts) && TakeAll(c, s, ts) == Drain(c, s');
  }

  // ----- Nested work and its parents -----

  function Reserved(held: set<Waiter>): set<Waiter> {
    set w | w in held && w.reserved
  }

  /** Some nested lease is out that will free what this nested waiter needs: one in its own room if
      the room is full, otherwise the whole reserve. */
  ghost predicate NestedProgress(c: Limits, s: Pool, w: Waiter) {
    if |InRoom(s.held, w.room)| >= c.perRoom
    then exists l :: l in InRoom(s.held, w.room) && l.reserved
    else |Reserved(s.held)| >= c.reserved
  }

  ghost predicate NestedNeverStarves(c: Limits, s: Pool) {
    forall w: Waiter :: !s.closed && w.reserved && Waits(s, w) ==> Reserved(s.held) != {} && NestedProgress(c, s, w)
  }

  lemma SplitClasses(held: set<Waiter>)
    ensures |held| == |General(held)| + |Reserved(held)|
  {
    assert held == General(held) + Reserved(held);
  }

  /** While a nested waiter waits, nested work is running: parents alone can never hold all it needs. */
  lemma NestedNotStarved(c: Limits, ops: seq<Op>)
    requires ValidLimits(c) && c.reserved >= 1 && c.perRoom >= 2
    ensures NestedNeverStarves(c, Run(c, ops))
  {
    hide Run, Inv, CanGrant, NestedNeverStarves;
    RunInv(c, ops);
    NestedRests(c, Run(c, ops));
  }

  lemma NestedRests(c: Limits, s: Pool)
    requires ValidLimits(c) && c.reserved >= 1 && c.perRoom >= 2 && Inv(c, s) && !CanGrant(c, s)
    ensures NestedNeverStarves(c, s)
  {
    forall w: Waiter | !s.closed && w.reserved && Waits(s, w)
      ensures Reserved(s.held) != {} && NestedProgress(c, s, w)
    {
      if s.active < c.limit {
        NotEligible(c, s, w);
      }
      SplitClasses(s.held);
      if |InRoom(s.held, w.room)| >= c.perRoom {
        RoomHasNested(c, s, w.room);
      }
    }
  }

  lemma RoomHasNested(c: Limits, s: Pool, r: string)
    requires LeasesInv(s) && CapsInv(c, s) && c.reserved >= 1 && c.perRoom >= 2
    requires |InRoom(s.held, r)| >= c.perRoom
    ensures exists l :: l in InRoom(s.held, r) && l.reserved
    ensures Reserved(s.held) != {}
  {
    assert Tally(s.generalRooms, r) == |InRoom(General(s.held), r)| <= c.perRoom - 1;
    var nested := InRoom(s.held, r) - InRoom(General(s.held), r);
    assert InRoom(s.held, r) == InRoom(General(s.held), r) + nested;
    var l :| l in nested;
    assert l in InRoom(s.held, r) && l.reserved && l in Reserved(s.held);
  }

  /** `n` ordinary arrivals in one room. */
  function Flood(n: nat): seq<Op> {
    if n == 0 then [] else Flood(n - 1) + [OpAcquire("a", false, false)]
  }

  ghost predicate Flooded(c: Limits, s: Pool, n: nat) {
    && s.active == n && s.generalActive == n && s.waiting == 0 && !s.closed && s.rooms == EmptyMap()
    && Tally(s.activeRooms, "a") == n && Tally(s.generalRooms, "a") == n && Reserved(s.held) == {}
  }

  lemma EnqueueGrant(c: Limits, s: Pool, reserved: bool)
    requires s.rooms == EmptyMap() && !s.closed && s.active < c.limit
    requires Eligible(c, s, Waiter(|s.issued|, "a", reserved))
    ensures ValidMap(Enqueue(s, "a", reserved).rooms) && CanGrant(c, Enqueue(s, "a", reserved))
    ensures NextWaiter(c, Enqueue(s, "a", reserved)) == Waiter(|s.issued|, "a", reserved)
    ensures NextRoom(c, Enqueue(s, "a", reserved)) == "a"
    ensures Grant(c, Enqueue(s, "a", reserved)).rooms == EmptyMap()
  {
    var s1 := Enqueue(s, "a", reserved);
    assert s1.rooms.keys == ["a"];
    assert QueueOf(s1, "a") == [Waiter(|s.issued|, "a", reserved)];
    assert Eligible(c, s1, QueueOf(s1, "a")[0]);
    SetValid(s.rooms, "a", QueueOf(s1, "a"));
    assert FirstRoom(c, s1, s1.rooms.keys) == 0;
    GrantShrinks(c, s1);
    var s2 := Grant(c, s1);
    assert s2.rooms.vals == map[];
  }

  lemma FloodOne(c: Limits, s: Pool, n: nat)
    requires ValidLimits(c) && (c.reserved == 0 || c.perRoom == 1)
    requires n < Min(c.limit - c.reserved, c.perRoom) && Flooded(c, s, n)
    ensures ValidMap(s.rooms) && Flooded(c, Acquire(c, s, "a", false, false), n + 1)
  {
    var s1 := Enqueue(s, "a", false);
    EnqueueGrant(c, s, false);
    GrantShrinks(c, s1);
    FloodGrant(c, s, n);
    hide Enqueue, Grant, CanGrant, Flooded;
    assert Drain(c, s1) == Drain(c, Grant(c, s1)) == Grant(c, s1);
  }

  lemma FloodGrant(c: Limits, s: Pool, n: nat)
    requires ValidLimits(c) && Flooded(c, s, n) && CanGrant(c, Enqueue(s, "a", false))
    requires NextWaiter(c, Enqueue(s, "a", false)) == Waiter(|s.issued|, "a", false)
    requires NextRoom(c, Enqueue(s, "a", false)) == "a" && Grant(c, Enqueue(s, "a", false)).rooms == EmptyMap()
    ensures Flooded(c, Grant(c, Enqueue(s, "a", false)), n + 1)
    ensures !CanGrant(c, Grant(c, Enqueue(s, "a", false)))
  {
    hide FirstEligible, NextRoom, NextWaiter, NextIndex, CanGrant, Without;
    var s2 := Grant(c, Enqueue(s, "a", false));
    assert Reserved(s2.held) == Reserved(s.held);
    EmptyRests(c, s2);
  }

  lemma EmptyRests(c: Limits, s: Pool)
    requires s.rooms == EmptyMap()
    ensures !CanGrant(c, s)
  {
  }

  lemma RunPush(c: Limits, ops: seq<Op>, op: Op)
    ensures Run(c, ops + [op]) == Apply(c, Run(c, ops), op)
  {
    assert (ops + [op])[..|ops|] == ops;
  }

  lemma ApplyAcquire(c: Limits, s: Pool, room: string, reserved: bool)
    requires ValidMap(s.rooms)
    ensures Apply(c, s, OpAcquire(room, false, reserved)) == Acquire(c, s, room, false, reserved)
  {
  }

  lemma FloodNone(c: Limits)
    ensures Flooded(c, Run(c, Flood(0)), 0)
  {
  }

  /** Ordinary work may fill a room or the whole pool when nothing is kept for nested work. */
  lemma {:induction false} FloodFills(c: Limits, n: nat)
    requires ValidLimits(c) && (c.reserved == 0 || c.perRoom == 1)
    requires n <= Min(c.limit - c.reserved, c.perRoom)
    ensures Flooded(c, Run(c, Flood(n)), n)
  {
    hide Run, Flooded, Apply, Acquire;
    if n == 0 {
      FloodNone(c);
    } else {
      FloodFills(c, n - 1);
      var s := Run(c, Flood(n - 1));
      FloodOne(c, s, n - 1);
      RunPush(c, Flood(n - 1), OpAcquire("a", false, false));
      ApplyAcquire(c, s, "a", false);
    }
  }

  /** The history that starves nested work: ordinary work first, then one nested arrival. */
  function StarvingHistory(c: Limits): seq<Op>
    requires ValidLimits(c)
  {
    Flood(Min(c.limit - c.reserved, c.perRoom)) + [OpAcquire("a", false, true)]
  }

  lemma NestedArrivalStarves(c: Limits, s: Pool)
    requires ValidLimits(c) && (c.reserved == 0 || c.perRoom == 1)
    requires Flooded(c, s, Min(c.limit - c.reserved, c.perRoom))
    ensures ValidMap(s.rooms) && !NestedNeverStarves(c, Apply(c, s, OpAcquire("a", false, true)))
  {
    var s1 := Enqueue(s, "a", true);
    NestedArrivalWaits(c, s);
    ApplyAcquire(c, s, "a", true);
    hide Enqueue, CanGrant, Eligible, Waits;
  }

  lemma NestedArrivalWaits(c: Limits, s: Pool)
    requires ValidLimits(c) && (c.reserved == 0 || c.perRoom == 1)
    requires Flooded(c, s, Min(c.limit - c.reserved, c.perRoom))
    ensures ValidMap(s.rooms)
    ensures var s1 := Enqueue(s, "a", true);
            && ValidMap(s1.rooms) && !CanGrant(c, s1) && !s1.closed && Reserved(s1.held) == {}
            && Waits(s1, Waiter(|s.issued|, "a", true))
  {
    var s1, w := Enqueue(s, "a", true), Waiter(|s.issued|, "a", true);
    assert s1.rooms.keys == ["a"] && QueueOf(s1, "a") == [w];
    SetValid(s.rooms, "a", [w]);
    assert s1.active < c.limit ==> !Eligible(c, s1, w);
    hide Enqueue, Eligible, ValidLimits;
  }

  lemma NestedStarves(c: Limits)
    requires ValidLimits(c) && (c.reserved == 0 || c.perRoom == 1)
    ensures !NestedNeverStarves(c, Run(c, StarvingHistory(c)))
  {
    hide Run, Flooded, NestedNeverStarves, Apply, Enqueue, Drain;
    var ordinary := Flood(Min(c.limit - c.reserved, c.perRoom));
    assert Flooded(c, Run(c, ordinary), Min(c.limit - c.reserved, c.perRoom)) by {
      FloodFills(c, Min(c.limit - c.reserved, c.perRoom));
    }
    NestedArrivalStarves(c, Run(c, ordinary));
    RunPush(c, ordinary, OpAcquire("a", false, true));
  }

  /** Nested work is safe from its parents exactly when a slot is reserved and rooms have two places. */
  lemma NestedNeverStarvesExactly(c: Limits)
    requires ValidLimits(c)
    ensures (forall ops :: NestedNeverStarves(c, Run(c, ops))) <==> c.reserved >= 1 && c.perRoom >= 2
  {
    if c.reserved >= 1 && c.perRoom >= 2 {
      forall ops ensures NestedNeverStarves(c, Run(c, ops)) { NestedNotStarved(c, ops); }
    } else {
      NestedStarves(c);
    }
  }
}
