/** The message queue, drain loop and identity-operation lock of `RuntimeRoutedSession`
    (`src/agent-runtime/routed-session.ts`) as a state machine. Each operation below is the code
    between two `await`s; everything else may happen in between. */
module SessionQueueSpec {

  /** `bytes` is the UTF-8 length of the text; `reminder` says that the text is a run reminder. */
  datatype Event = Event(id: string, bytes: nat, reminder: bool)

  /** `order` counts acceptances. */
  datatype Item =
    | Message(event: Event, acceptedAt: int, order: nat)
    | Compact(id: string, order: nat)
  {
    function Id(): string {
      if Message? then event.id else id
    }
  }

  const MAX_MESSAGE_BYTES := 1024 * 1024
  const MAX_MESSAGES := 64
  const MAX_QUEUE_BYTES := 4 * 1024 * 1024
  const MAX_WAIT_MS := 10 * 60 * 1000

  /** The drain promise: absent, its loop is awaiting an item, or settled with its `finally` to come. */
  datatype Drain = NoDrain | Awaiting(item: Item) | Settled

  /** `forkCandidatesRequest`, and whether its owner also holds the identity lock. */
  datatype ForkRequest = NoRequest | RequestWhileRunning | RequestWhileIdle

  datatype Session = Session(
    queue: seq<Item>,
    processing: bool,
    disposed: bool,
    drain: Drain,
    identityOperation: bool,
    forkRequest: ForkRequest,
    nextOrder: nat,
    taken: seq<Item>)     // every item the drain loop has shifted, in order

  function Initial(): Session {
    Session([], false, false, NoDrain, false, NoRequest, 0, [])
  }

  // ----- Quantities of the queue -----

  datatype Measure = Ordinary | OrdinaryBytes | Reminders | ReminderBytes

  function Weigh(m: Measure, i: Item): nat {
    if i.Compact? then 0
    else match m
      case Ordinary => if i.event.reminder then 0 else 1
      case OrdinaryBytes => if i.event.reminder then 0 else i.event.bytes
      case Reminders => if i.event.reminder then 1 else 0
      case ReminderBytes => if i.event.reminder then i.event.bytes else 0
  }

  function Total(m: Measure, q: seq<Item>): nat {
    if q == [] then 0 else Weigh(m, q[0]) + Total(m, q[1..])
  }

  function Max(a: int, b: int): int {
    if a > b then a else b
  }

  /** The longest wait of an ordinary message. */
  function OldestWait(q: seq<Item>, now: int): int {
    if q == [] then 0
    else
      var rest := OldestWait(q[1..], now);
      if q[0].Message? && !q[0].event.reminder then Max(rest, now - q[0].acceptedAt) else rest
  }

  function Keep(q: seq<Item>, drop: Item -> bool): seq<Item> {
    if q == [] then [] else (if drop(q[0]) then [] else [q[0]]) + Keep(q[1..], drop)
  }

  const IsReminder: Item -> bool := (i: Item) => i.Message? && i.event.reminder

  function DropMessages(drop: Event -> bool): Item -> bool {
    (i: Item) => i.Message? && drop(i.event)
  }

  // ----- The drain loop -----

  /** The loop head of `drain`: shift the next item, or finish and settle the promise. */
  function LoopHead(s: Session): Session {
    if s.queue != [] && !s.disposed then
      s.(queue := s.queue[1..], drain := Awaiting(s.queue[0]), taken := s.taken + [s.queue[0]])
    else
      s.(processing := false, drain := Settled)
  }

  function StartDrain(s: Session): Session {
    if s.drain != NoDrain || s.identityOperation then s
    else if s.processing || s.disposed then s.(drain := Settled)
    else LoopHead(s.(processing := true))
  }

  /** The item being awaited settles. */
  function ItemDone(s: Session): Session {
    if s.drain.Awaiting? then LoopHead(s) else s
  }

  /** The `finally` of the drain promise. */
  function DrainFinally(s: Session): Session {
    if s.drain != Settled then s
    else
      var s' := s.(drain := NoDrain);
      if s'.queue != [] && !s'.disposed then StartDrain(s') else s'
  }

  // ----- Admission -----

  datatype Refusal = Disposed | IdentityBusy | MessageBytes | QueueCount | QueueBytes | OldestWaitAge

  datatype Verdict = Accepted | Refused(why: Refusal)

  /** The four capacity checks, in the order of the code. */
  function Capacity(q: seq<Item>, e: Event, now: int): Verdict {
    if e.bytes > MAX_MESSAGE_BYTES then Refused(MessageBytes)
    else if Total(Ordinary, q) >= MAX_MESSAGES then Refused(QueueCount)
    else if Total(OrdinaryBytes, q) + e.bytes > MAX_QUEUE_BYTES then Refused(QueueBytes)
    else if OldestWait(q, now) >= MAX_WAIT_MS then Refused(OldestWaitAge)
    else Accepted
  }

  /** A run reminder first removes the one already queued. */
  function Coalesced(s: Session, e: Event): Session {
    if e.reminder then s.(queue := Keep(s.queue, IsReminder)) else s
  }

  function Enqueue(s: Session, e: Event, now: int): (r: (Session, Verdict)) {
    if s.disposed then (s, Refused(Disposed))
    else if s.identityOperation && s.forkRequest == NoRequest then (s, Refused(IdentityBusy))
    else
      var s1 := Coalesced(s, e);
      var v := Capacity(s1.queue, e, now);
      if v != Accepted then (s1, v)
      else (StartDrain(s1.(queue := s1.queue + [Message(e, now, s.nextOrder)], nextOrder := s.nextOrder + 1)), Accepted)
  }

  function EnqueueCompact(s: Session, id: string): Session {
    if s.disposed then s
    else StartDrain(s.(queue := s.queue + [Compact(id, s.nextOrder)], nextOrder := s.nextOrder + 1))
  }

  // ----- Removal -----

  function RemoveQueued(s: Session, drop: Event -> bool): Session {
    if s.disposed then s else s.(queue := Keep(s.queue, DropMessages(drop)))
  }

  function IndexOfId(q: seq<Item>, id: string): (i: int)
    ensures -1 <= i < |q|
    ensures i >= 0 ==> q[i].Id() == id
  {
    if q == [] then -1
    else if q[0].Id() == id then 0
    else
      var rest := IndexOfId(q[1..], id);
      if rest < 0 then -1 else rest + 1
  }

  function CancelQueued(s: Session, id: string): Session {
    var i := IndexOfId(s.queue, id);
    if s.disposed || i < 0 then s else s.(queue := s.queue[..i] + s.queue[i + 1..])
  }

  function Clear(s: Session): Session {
    s.(queue := [])
  }

  // ----- Identity operations: fork, clone, switch and idle fork-candidate scans -----

  predicate HasWork(s: Session, streaming: bool) {
    (!s.disposed && (s.processing || streaming)) || s.queue != []
  }

  predicate CanBeginIdentity(s: Session, streaming: bool) {
    !s.disposed && !s.identityOperation && !HasWork(s, streaming)
  }

  function BeginIdentity(s: Session, streaming: bool): Session {
    if CanBeginIdentity(s, streaming) then s.(identityOperation := true) else s
  }

  /** The `finally` of an identity operation that took the lock. */
  function EndIdentity(s: Session): Session {
    if s.identityOperation && s.forkRequest != RequestWhileIdle then StartDrain(s.(identityOperation := false)) else s
  }

  /** `getForkCandidates`; it does not ask whether the session is disposed. */
  function BeginForkScan(s: Session, streaming: bool, whileRunning: bool): Session {
    if s.forkRequest != NoRequest || s.identityOperation then s
    else if HasWork(s, streaming) then (if whileRunning then s.(forkRequest := RequestWhileRunning) else s)
    else s.(identityOperation := true, forkRequest := RequestWhileIdle)
  }

  function EndForkScan(s: Session): Session {
    match s.forkRequest
    case NoRequest => s
    case RequestWhileRunning => s.(forkRequest := NoRequest)
    case RequestWhileIdle => StartDrain(s.(forkRequest := NoRequest, identityOperation := false))
  }

  function Dispose(s: Session): Session {
    if s.disposed then s else s.(queue := [], disposed := true, processing := false)
  }

  // ----- Histories -----

  datatype Op =
    | OpEnqueue(event: Event, now: int)
    | OpCompact(id: string)
    | OpRemove(drop: Event -> bool)
    | OpCancel(id: string)
    | OpClear
    | OpBeginIdentity(streaming: bool)
    | OpEndIdentity
    | OpBeginForkScan(streaming: bool, whileRunning: bool)
    | OpEndForkScan
    | OpItemDone
    | OpDrainFinally
    | OpDispose

  function Apply(s: Session, op: Op): Session {
    match op
    case OpEnqueue(e, now) => Enqueue(s, e, now).0
    case OpCompact(id) => EnqueueCompact(s, id)
    case OpRemove(drop) => RemoveQueued(s, drop)
    case OpCancel(id) => CancelQueued(s, id)
    case OpClear => Clear(s)
    case OpBeginIdentity(streaming) => BeginIdentity(s, streaming)
    case OpEndIdentity => EndIdentity(s)
    case OpBeginForkScan(streaming, whileRunning) => BeginForkScan(s, streaming, whileRunning)
    case OpEndForkScan => EndForkScan(s)
    case OpItemDone => ItemDone(s)
    case OpDrainFinally => DrainFinally(s)
    case OpDispose => Dispose(s)
  }

  function Run(ops: seq<Op>): Session {
    if ops == [] then Initial() else Apply(Run(ops[..|ops| - 1]), ops[|ops| - 1])
  }
}
