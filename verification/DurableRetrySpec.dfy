/** Several `OutputPersistenceRetryQueue` workers on one durable store (`src/core/output-persistence-retry.ts`),
    as interleaved steps. A worker may try to claim any job at any time, and any attempt may end at any time. */
module DurableRetrySpec {
  import opened JobStoreSpec

  /** One attempt of a worker, with the claim token it got. After `dispose` its run may go on unattended. */
  datatype Attempt = Attempt(job: nat, worker: string, token: nat, aborted: bool, ended: bool, disposed: bool)

  /** A call of `onSuccess`: by which attempt, and whether its own acknowledgement went through. */
  datatype Success = Success(attempt: nat, acked: bool)

  /** `acks` lists the attempts whose acknowledgement succeeded. */
  datatype System = System(store: Store, attempts: seq<Attempt>, acks: seq<nat>, successes: seq<Success>)

  /** How `run` ended; `Lost` is the error that `updatePayload` raises. */
  datatype RunResult = Resolved | Failed(retryable: bool, delay: nat) | Lost

  function Start(): System {
    System(NewStore(), [], [], [])
  }

  /** The claim at the head of `attempt`; a refused claim leaves the worker with nothing. */
  function ClaimStep(y: System, id: nat, worker: string, now: int, visibility: nat, force: bool): System {
    var s := Claim(y.store, id, worker, now, visibility, force);
    if Claims(y.store, id, now, force) then
      y.(store := s, attempts := y.attempts + [Attempt(id, worker, s.rows[id].token, false, false, false)])
    else y.(store := s)
  }

  /** A failed heartbeat aborts the attempt. */
  function HeartbeatStep(y: System, i: nat, extend: nat, now: int): System
    requires i < |y.attempts|
  {
    var a := y.attempts[i];
    if Holds(y.store, a.job, a.worker, a.token, now) then
      y.(store := Heartbeat(y.store, a.job, a.worker, a.token, extend, now))
    else y.(attempts := y.attempts[i := a.(aborted := true)])
  }

  /** The end of `attempt` after `run` resolved. */
  function EndResolved(y: System, i: nat, now: int): System
    requires i < |y.attempts|
  {
    var a := y.attempts[i];
    var ended := y.(attempts := y.attempts[i := a.(ended := true)]);
    if a.aborted then ended
    else if Holds(y.store, a.job, a.worker, a.token, now) then
      ended.(store := Ack(y.store, a.job, a.worker, a.token, now), acks := y.acks + [i],
             successes := y.successes + [Success(i, true)])
    else if a.job in y.store.rows then ended
    else ended.(successes := y.successes + [Success(i, false)])
  }

  function End(y: System, i: nat, result: RunResult, now: int): System
    requires i < |y.attempts|
  {
    var a := y.attempts[i];
    var ended := y.(attempts := y.attempts[i := a.(ended := true)]);
    match result
    case Resolved => EndResolved(y, i, now)
    case Lost => ended
    case Failed(retryable, delay) =>
      ended.(store := if retryable then Retry(y.store, a.job, a.worker, a.token, delay, now)
                      else Fail(y.store, a.job, a.worker, a.token, now))
  }

  /** `dispose` releases the claim; how the run ends later is ignored. */
  function DisposeStep(y: System, i: nat, now: int): System
    requires i < |y.attempts|
  {
    var a := y.attempts[i];
    y.(store := Retry(y.store, a.job, a.worker, a.token, 0, now),
       attempts := y.attempts[i := a.(aborted := true, ended := true, disposed := true)])
  }

  datatype Op =
    | DoEnqueue(key: string, payload: string, now: int, maxAttempts: nat)
    | DoClaim(id: nat, worker: string, now: int, visibility: nat, force: bool)
    | DoUpdate(i: nat, payload: string, now: int)
    | DoHeartbeat(i: nat, extend: nat, now: int)
    | DoEnd(i: nat, result: RunResult, now: int)
    | DoDispose(i: nat, now: int)
    | DoExhaust(id: nat, now: int)
    | DoQuarantine(id: nat)

  /** A step of an attempt that has not ended. Its run may also still update the payload after `dispose`. */
  predicate OfAttempt(y: System, op: Op) {
    (op.DoUpdate? || op.DoHeartbeat? || op.DoEnd? || op.DoDispose?) && op.i < |y.attempts|
    && (!y.attempts[op.i].ended || (op.DoUpdate? && y.attempts[op.i].disposed))
  }

  function Apply(y: System, op: Op): System {
    match op
    case DoEnqueue(key, payload, now, maxAttempts) => y.(store := Enqueue(y.store, key, payload, now, maxAttempts))
    case DoClaim(id, worker, now, visibility, force) => ClaimStep(y, id, worker, now, visibility, force)
    case DoExhaust(id, now) => y.(store := Exhaust(y.store, id, now))
    case DoQuarantine(id) => y.(store := Quarantine(y.store, id))
    case _ => if OfAttempt(y, op) then ApplyOwn(y, op) else y
  }

  function ApplyOwn(y: System, op: Op): System
    requires OfAttempt(y, op)
  {
    var a := y.attempts[op.i];
    match op
    case DoUpdate(i, payload, now) =>
      y.(store := UpdatePayload(y.store, a.job, a.worker, a.token, payload, now))
    case DoHeartbeat(i, extend, now) => HeartbeatStep(y, i, extend, now)
    case DoEnd(i, result, now) => End(y, i, result, now)
    case DoDispose(i, now) => DisposeStep(y, i, now)
  }

  function Run(ops: seq<Op>): System {
    if ops == [] then Start() else Apply(Run(ops[..|ops| - 1]), ops[|ops| - 1])
  }

  // ----- The invariant -----

  /** A live row has used exactly as many attempts as it was claimed, and never more than allowed. */
  ghost predicate StoreOk(s: Store) {
    && (forall id <- s.rows :: id < |s.jobs|)
    && (forall id :: 0 <= id < |s.jobs| ==> JobOk(s, id))
  }

  predicate JobOk(s: Store, id: nat)
    requires id < |s.jobs|
  {
    var info := s.jobs[id];
    && 1 <= info.maxAttempts && info.claims <= info.maxAttempts
    && (id in s.rows <==> info.fate.Live?)
    && (id in s.rows ==>
          s.rows[id].token == s.rows[id].attempts == info.claims && s.rows[id].maxAttempts == info.maxAttempts)
    && (info.fate == Dead(Exhausted) ==> info.claims == info.maxAttempts)
  }

  /** Tokens of one job's attempts go up in the order they were claimed, and none is above the row's. */
  ghost predicate TokensOk(jobs: seq<Info>, attempts: seq<Attempt>) {
    && (forall i :: 0 <= i < |attempts| ==> attempts[i].job < |jobs| && 1 <= attempts[i].token <= jobs[attempts[i].job].claims)
    && (forall i, j :: 0 <= i < j < |attempts| && attempts[i].job == attempts[j].job ==>
          attempts[i].token < attempts[j].token)
  }

  function CountOf(attempts: seq<Attempt>, id: nat): nat {
    if attempts == [] then 0
    else CountOf(attempts[..|attempts| - 1], id) + if attempts[|attempts| - 1].job == id then 1 else 0
  }

  ghost predicate CountsOk(jobs: seq<Info>, attempts: seq<Attempt>) {
    forall id :: 0 <= id < |jobs| ==> CountOf(attempts, id) == jobs[id].claims
  }

  /** An acknowledged job went with the claim of exactly one attempt; no job is acknowledged twice. */
  ghost predicate AcksOk(jobs: seq<Info>, attempts: seq<Attempt>, acks: seq<nat>) {
    && (forall k :: 0 <= k < |acks| ==> AckOk(jobs, attempts, acks[k]))
    && (forall k, m :: 0 <= k < m < |acks| ==> attempts[acks[k]].job != attempts[acks[m]].job)
    && (forall id :: 0 <= id < |jobs| && jobs[id].fate.Acked? ==> exists i <- acks :: attempts[i].job == id)
    && (forall i :: 0 <= i < |attempts| && attempts[i].job < |jobs| && jobs[attempts[i].job].fate == Acked(attempts[i].token)
          ==> attempts[i].ended)
  }

  predicate AckOk(jobs: seq<Info>, attempts: seq<Attempt>, i: nat) {
    && i < |attempts| && attempts[i].ended && !attempts[i].aborted && attempts[i].job < |jobs|
    && jobs[attempts[i].job].fate == Acked(attempts[i].token)
  }

  predicate SuccessOk(jobs: seq<Info>, attempts: seq<Attempt>, s: Success) {
    && s.attempt < |attempts| && attempts[s.attempt].ended && !attempts[s.attempt].aborted
    && attempts[s.attempt].job < |jobs| && !jobs[attempts[s.attempt].job].fate.Live?
    && (s.acked <==> jobs[attempts[s.attempt].job].fate == Acked(attempts[s.attempt].token))
  }

  ghost predicate SuccessesOk(jobs: seq<Info>, attempts: seq<Attempt>, successes: seq<Success>) {
    forall k :: 0 <= k < |successes| ==> SuccessOk(jobs, attempts, successes[k])
  }

  ghost predicate Inv(y: System) {
    && StoreOk(y.store)
    && TokensOk(y.store.jobs, y.attempts) && CountsOk(y.store.jobs, y.attempts)
    && AcksOk(y.store.jobs, y.attempts, y.acks)
    && SuccessesOk(y.store.jobs, y.attempts, y.successes)
  }
}
