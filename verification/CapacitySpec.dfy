/** The fair capacity pool of `src/core/runtime-capacity.ts` as a state machine on values.
    The class in CapacityPool.dfy refines it step by step. */
module CapacitySpec {
  import opened JsMap

  /** One promise handed out by `acquire`. Identities count up in order of arrival. */
  datatype Waiter = Waiter(id: nat, room: string, reserved: bool)

  datatype Outcome = Granted | Rejected

  datatype Limits = Limits(limit: int, perRoom: int, maxWaiting: int, maxWaitMs: int, reserved: int)

  datatype Pool = Pool(
    rooms: JsMap<string, seq<Waiter>>,
    activeRooms: map<string, int>,
    active: int,
    generalActive: int,
    generalRooms: map<string, int>,
    waiting: int,
    closed: bool,
    issued: seq<Waiter>,          // every waiter ever queued, by identity
    settled: map<nat, Outcome>,   // promises already resolved or rejected
    held: set<Waiter>,            // leases granted and not yet released
    grants: seq<Waiter>)          // every lease ever granted, in order

  predicate SafeInteger(n: int) {
    -9007199254740991 <= n <= 9007199254740991
  }

  /** The checks of the constructor. */
  predicate ValidLimits(c: Limits) {
    && SafeInteger(c.reserved) && 0 <= c.reserved < c.limit
    && SafeInteger(c.limit) && SafeInteger(c.perRoom) && SafeInteger(c.maxWaiting) && SafeInteger(c.maxWaitMs)
    && 1 <= c.limit && 1 <= c.perRoom && 1 <= c.maxWaiting && 1 <= c.maxWaitMs
  }

  function Min(a: int, b: int): int {
    if a < b then a else b
  }

  /** Slots of one room that general work may use: one is kept for nested work when there is room for it. */
  function RoomGeneralCap(c: Limits): int {
    c.perRoom - Min(c.reserved, Min(1, c.perRoom - 1))
  }

  /** Queue length at which an arrival is refused. */
  function AdmissionBound(c: Limits, reserved: bool): int {
    c.maxWaiting - if reserved then 0 else Min(c.reserved, c.maxWaiting - 1)
  }

  function Empty(): Pool {
    Pool(EmptyMap(), map[], 0, 0, map[], 0, false, [], map[], {}, [])
  }

  function Tally(m: map<string, int>, r: string): int {
    if r in m then m[r] else 0
  }

  function Add(m: map<string, int>, r: string): map<string, int> {
    m[r := Tally(m, r) + 1]
  }

  /** Counters that reach zero are deleted. */
  function Subtract(m: map<string, int>, r: string): map<string, int> {
    if Tally(m, r) - 1 == 0 then m - {r} else m[r := Tally(m, r) - 1]
  }

  function QueueOf(s: Pool, r: string): seq<Waiter> {
    GetOr(s.rooms, r, [])
  }

  // ----- Which waiter goes next -----

  predicate Eligible(c: Limits, s: Pool, w: Waiter) {
    && Tally(s.activeRooms, w.room) < c.perRoom
    && (w.reserved
        || (s.generalActive < c.limit - c.reserved && Tally(s.generalRooms, w.room) < RoomGeneralCap(c)))
  }

  /** `queue.findIndex(eligible)`. */
  function FirstEligible(c: Limits, s: Pool, q: seq<Waiter>): (k: int)
    ensures -1 <= k < |q|
    ensures 0 <= k ==> Eligible(c, s, q[k]) && forall j :: 0 <= j < k ==> !Eligible(c, s, q[j])
    ensures k < 0 ==> forall j :: 0 <= j < |q| ==> !Eligible(c, s, q[j])
  {
    if q == [] then -1
    else if Eligible(c, s, q[0]) then 0
    else
      var rest := FirstEligible(c, s, q[1..]);
      if rest < 0 then -1 else rest + 1
  }

  /** `[...rooms].find(([, queue]) => queue.some(eligible))`: the position of the room, or -1. */
  function FirstRoom(c: Limits, s: Pool, keys: seq<string>): (i: int)
    ensures -1 <= i < |keys|
    ensures 0 <= i ==> FirstEligible(c, s, QueueOf(s, keys[i])) >= 0
    ensures 0 <= i ==> forall j :: 0 <= j < i ==> FirstEligible(c, s, QueueOf(s, keys[j])) < 0
    ensures i < 0 ==> forall j :: 0 <= j < |keys| ==> FirstEligible(c, s, QueueOf(s, keys[j])) < 0
  {
    if keys == [] then -1
    else if FirstEligible(c, s, QueueOf(s, keys[0])) >= 0 then 0
    else
      var rest := FirstRoom(c, s, keys[1..]);
      if rest < 0 then -1 else rest + 1
  }

  predicate CanGrant(c: Limits, s: Pool) {
    !s.closed && s.active < c.limit && FirstRoom(c, s, s.rooms.keys) >= 0
  }

  function Without<T>(q: seq<T>, k: nat): (r: seq<T>)
    requires k < |q|
    ensures |r| == |q| - 1
  {
    q[..k] + q[k + 1..]
  }

  function NextRoom(c: Limits, s: Pool): string
    requires CanGrant(c, s)
  {
    s.rooms.keys[FirstRoom(c, s, s.rooms.keys)]
  }

  function NextIndex(c: Limits, s: Pool): (k: nat)
    requires CanGrant(c, s)
    ensures k < |QueueOf(s, NextRoom(c, s))| && Eligible(c, s, QueueOf(s, NextRoom(c, s))[k])
  {
    FirstEligible(c, s, QueueOf(s, NextRoom(c, s)))
  }

  function NextWaiter(c: Limits, s: Pool): (w: Waiter)
    requires CanGrant(c, s)
    ensures Eligible(c, s, w)
  {
    QueueOf(s, NextRoom(c, s))[NextIndex(c, s)]
  }

  // ----- Atomic steps -----

  function Enqueue(s: Pool, room: string, reserved: bool): Pool {
    var w := Waiter(|s.issued|, room, reserved);
    s.(rooms := Set(s.rooms, room, QueueOf(s, room) + [w]), waiting := s.waiting + 1, issued := s.issued + [w])
  }

  function Position(q: seq<Waiter>, w: Waiter): (k: int)
    ensures -1 <= k < |q|
    ensures 0 <= k ==> q[k] == w
    ensures k < 0 ==> w !in q
  {
    if q == [] then -1
    else if q[0] == w then 0
    else
      var rest := Position(q[1..], w);
      if rest < 0 then -1 else rest + 1
  }

  predicate IsQueued(s: Pool, id: nat) {
    id < |s.issued| && Position(QueueOf(s, s.issued[id].room), s.issued[id]) >= 0
  }

  /** A deadline or an abort takes a queued waiter out. */
  function Withdraw(s: Pool, id: nat): Pool
    requires IsQueued(s, id)
  {
    var w := s.issued[id];
    var q := Without(QueueOf(s, w.room), Position(QueueOf(s, w.room), w));
    s.(rooms := if q == [] then Delete(s.rooms, w.room) else Set(s.rooms, w.room, q),
       waiting := s.waiting - 1,
       settled := s.settled[id := Rejected])
  }

  /** One turn of the drain loop: the first eligible waiter of the first room that has one. */
  function Grant(c: Limits, s: Pool): Pool
    requires CanGrant(c, s)
  {
    var room, w := NextRoom(c, s), NextWaiter(c, s);
    var q := Without(QueueOf(s, room), NextIndex(c, s));
    s.(rooms := if q == [] then Delete(s.rooms, room) else Set(Delete(s.rooms, room), room, q),
       generalActive := if w.reserved then s.generalActive else s.generalActive + 1,
       generalRooms := if w.reserved then s.generalRooms else Add(s.generalRooms, room),
       waiting := s.waiting - 1,
       active := s.active + 1,
       activeRooms := Add(s.activeRooms, room),
       settled := s.settled[w.id := Granted],
       held := s.held + {w},
       grants := s.grants + [w])
  }

  function Return(s: Pool, w: Waiter): Pool
    requires w in s.held
  {
    s.(active := s.active - 1,
       generalActive := if w.reserved then s.generalActive else s.generalActive - 1,
       generalRooms := if w.reserved then s.generalRooms else Subtract(s.generalRooms, w.room),
       activeRooms := Subtract(s.activeRooms, w.room),
       held := s.held - {w})
  }

  function Shut(s: Pool): Pool {
    s.(closed := true, rooms := EmptyMap(), waiting := 0,
       settled := s.settled + map i | 0 <= i < |s.issued| && i !in s.settled :: Rejected)
  }

  // ----- Whole operations: a step and then the drain loop -----

  function Total(keys: seq<string>, vals: map<string, seq<Waiter>>): nat {
    if keys == [] then 0 else (if keys[0] in vals then |vals[keys[0]]| else 0) + Total(keys[1..], vals)
  }

  /** How many waiters the room queues hold. */
  function Queued(s: Pool): nat {
    Total(s.rooms.keys, s.rooms.vals)
  }

  lemma {:induction false} TotalConcat(a: seq<string>, b: seq<string>, vals: map<string, seq<Waiter>>)
    ensures Total(a + b, vals) == Total(a, vals) + Total(b, vals)
  {
    if a == [] {
      assert a + b == b;
    } else {
      assert (a + b)[1..] == a[1..] + b;
      TotalConcat(a[1..], b, vals);
    }
  }

  lemma {:induction false} TotalSame(keys: seq<string>, vals: map<string, seq<Waiter>>, vals': map<string, seq<Waiter>>)
    requires forall k :: k in keys ==> (k in vals <==> k in vals') && (k in vals ==> vals[k] == vals'[k])
    ensures Total(keys, vals) == Total(keys, vals')
  {
    if keys != [] {
      assert keys[0] in keys;
      TotalSame(keys[1..], vals, vals');
    }
  }

  lemma TotalSplit(keys: seq<string>, i: nat, vals: map<string, seq<Waiter>>)
    requires i < |keys|
    ensures Total(keys, vals)
         == Total(keys[..i], vals) + Total(keys[i + 1..], vals) + if keys[i] in vals then |vals[keys[i]]| else 0
  {
    assert keys == keys[..i] + keys[i..];
    TotalConcat(keys[..i], keys[i..], vals);
    assert keys[i..][1..] == keys[i + 1..];
  }

  /** How `set` changes the number of queued waiters. */
  lemma TotalAfterSet(m: JsMap<string, seq<Waiter>>, r: string, q: seq<Waiter>)
    requires ValidMap(m)
    ensures Total(Set(m, r, q).keys, Set(m, r, q).vals) == Total(m.keys, m.vals) - |GetOr(m, r, [])| + |q|
  {
    var i, s := IndexOf(m.keys, r), Set(m, r, q);
    if i < 0 {
      TotalConcat(m.keys, [r], s.vals);
      assert Total([r], s.vals) == |q| + Total([r][1..], s.vals);
      TotalSame(m.keys, m.vals, s.vals);
    } else {
      TotalSplit(m.keys, i, m.vals);
      TotalSplit(m.keys, i, s.vals);
      TotalSame(m.keys[..i], m.vals, s.vals);
      TotalSame(m.keys[i + 1..], m.vals, s.vals);
    }
  }

  /** How `delete` changes it. */
  lemma TotalAfterDelete(m: JsMap<string, seq<Waiter>>, r: string)
    requires ValidMap(m)
    ensures Total(Delete(m, r).keys, Delete(m, r).vals) == Total(m.keys, m.vals) - |GetOr(m, r, [])|
  {
    var i, d := IndexOf(m.keys, r), Delete(m, r);
    if i < 0 {
      TotalSame(m.keys, m.vals, d.vals);
    } else {
      TotalSplit(m.keys, i, m.vals);
      TotalConcat(m.keys[..i], m.keys[i + 1..], d.vals);
      TotalSame(m.keys[..i], m.vals, d.vals);
      TotalSame(m.keys[i + 1..], m.vals, d.vals);
    }
  }

  /** A grant takes one waiter out of the queues. */
  lemma GrantShrinks(c: Limits, s: Pool)
    requires CanGrant(c, s) && ValidMap(s.rooms)
    ensures ValidMap(Grant(c, s).rooms) && Queued(Grant(c, s)) == Queued(s) - 1
  {
    var room := NextRoom(c, s);
    var q := Without(QueueOf(s, room), NextIndex(c, s));
    DeleteValid(s.rooms, room);
    SetValid(Delete(s.rooms, room), room, q);
    TotalAfterDelete(s.rooms, room);
    TotalAfterSet(Delete(s.rooms, room), room, q);
  }

  function Drain(c: Limits, s: Pool): Pool
    requires ValidMap(s.rooms)
    decreases Queued(s)
  {
    if CanGrant(c, s) then
      GrantShrinks(c, s);
      Drain(c, Grant(c, s))
    else s
  }

  datatype Refusal = Accepted | PoolClosed | Aborted | QueueFull

  function Admission(c: Limits, s: Pool, aborted: bool, reserved: bool): Refusal {
    if s.closed then PoolClosed
    else if aborted then Aborted
    else if s.waiting >= AdmissionBound(c, reserved) then QueueFull
    else Accepted
  }

  function Acquire(c: Limits, s: Pool, room: string, aborted: bool, reserved: bool): Pool
    requires ValidMap(s.rooms)
  {
    if Admission(c, s, aborted, reserved) != Accepted then s
    else
      StepsValid(s);
      Drain(c, Enqueue(s, room, reserved))
  }

  /** The timer or abort handler of waiter `id`; it does nothing once the waiter has left the queue. */
  function Cancel(c: Limits, s: Pool, id: nat): Pool
    requires ValidMap(s.rooms)
  {
    if IsQueued(s, id) then
      StepsValid(s);
      Drain(c, Withdraw(s, id))
    else s
  }

  /** `lease.release()`; the closure's flag makes a second call do nothing. */
  function Release(c: Limits, s: Pool, w: Waiter): Pool
    requires ValidMap(s.rooms)
  {
    if w in s.held then Drain(c, Return(s, w)) else s
  }

  datatype Op =
    | OpAcquire(room: string, aborted: bool, reserved: bool)
    | OpCancel(id: nat)
    | OpRelease(lease: Waiter)
    | OpClose

  lemma DrainValid(c: Limits, s: Pool)
    requires ValidMap(s.rooms)
    ensures ValidMap(Drain(c, s).rooms)
    decreases Queued(s)
  {
    if CanGrant(c, s) {
      GrantShrinks(c, s);
      DrainValid(c, Grant(c, s));
    }
  }

  lemma StepsValid(s: Pool)
    requires ValidMap(s.rooms)
    ensures forall room, reserved :: ValidMap(Enqueue(s, room, reserved).rooms)
    ensures forall id: nat | IsQueued(s, id) :: ValidMap(Withdraw(s, id).rooms)
  {
    forall room, reserved ensures ValidMap(Enqueue(s, room, reserved).rooms) {
      SetValid(s.rooms, room, Enqueue(s, room, reserved).rooms.vals[room]);
    }
    forall id: nat | IsQueued(s, id) ensures ValidMap(Withdraw(s, id).rooms) {
      var w := s.issued[id];
      DeleteValid(s.rooms, w.room);
      SetValid(s.rooms, w.room, Without(QueueOf(s, w.room), Position(QueueOf(s, w.room), w)));
    }
  }

  function Apply(c: Limits, s: Pool, op: Op): (s': Pool)
    requires ValidMap(s.rooms)
    ensures ValidMap(s'.rooms)
  {
    StepsValid(s);
    match op
    case OpAcquire(room, aborted, reserved) =>
      DrainValid(c, Enqueue(s, room, reserved));
      Acquire(c, s, room, aborted, reserved)
    case OpCancel(id) =>
      (if IsQueued(s, id) then
         DrainValid(c, Withdraw(s, id));
         Cancel(c, s, id)
       else s)
    case OpRelease(w) =>
      (if w in s.held then
         DrainValid(c, Return(s, w));
         Release(c, s, w)
       else s)
    case OpClose => Shut(s)
  }

  /** Every state between operations of a pool is `Run` of some history. */
  function Run(c: Limits, ops: seq<Op>): (s: Pool)
    ensures ValidMap(s.rooms)
  {
    if ops == [] then Empty() else Apply(c, Run(c, ops[..|ops| - 1]), ops[|ops| - 1])
  }
}
