/** The job table of `src/reliability/store.ts` as far as `OutputPersistenceRetryQueue` uses it. Clocks are
    not trusted: each call brings its own reading of the time. */
module JobStoreSpec {

  datatype Option<+T> = None | Some(value: T)

  /** A row of the live table. `token` counts claims; a pending row keeps the last one. */
  datatype Row = Row(
    key: string, payload: string, running: bool, worker: string, token: nat,
    expires: int, runAt: int, attempts: nat, maxAttempts: nat)

  datatype Reason = PermanentFailure | Exhausted | QuarantinedRow

  /** What has become of a job: `Acked` names the claim that acknowledged it. */
  datatype Fate = Live | Acked(token: nat) | Dead(reason: Reason)

  /** The observer's record of one job ever stored. */
  datatype Info = Info(fate: Fate, claims: nat, maxAttempts: nat)

  /** Job ids are numbers in order of creation and never used twice. */
  datatype Store = Store(rows: map<nat, Row>, jobs: seq<Info>)

  function Max(a: int, b: int): int {
    if a > b then a else b
  }

  function NewStore(): Store {
    Store(map[], [])
  }

  /** The condition all calls of a claim holder share: same worker, same token, not expired. */
  predicate Holds(s: Store, id: nat, worker: string, token: nat, now: int) {
    id in s.rows && s.rows[id].running && s.rows[id].worker == worker && s.rows[id].token == token
    && s.rows[id].expires > now
  }

  /** The live job with this idempotency key, looked for from `id` on. */
  function FindKey(s: Store, key: string, id: nat): (found: Option<nat>)
    ensures found.Some? ==> found.value in s.rows && s.rows[found.value].key == key
    ensures found.None? ==> forall k :: id <= k < |s.jobs| && k in s.rows ==> s.rows[k].key != key
    decreases |s.jobs| - id
  {
    if id >= |s.jobs| then None
    else if id in s.rows && s.rows[id].key == key then Some(id)
    else FindKey(s, key, id + 1)
  }

  function Enqueue(s: Store, key: string, payload: string, now: int, maxAttempts: nat): Store {
    if FindKey(s, key, 0).Some? then s
    else
      var most := Max(1, maxAttempts);
      Store(s.rows[|s.jobs| := Row(key, payload, false, "", 0, 0, now, 0, most)], s.jobs + [Info(Live, 0, most)])
  }

  function Remove(s: Store, id: nat, fate: Fate): Store {
    Store(s.rows - {id}, if id < |s.jobs| then s.jobs[id := s.jobs[id].(fate := fate)] else s.jobs)
  }

  function Write(s: Store, id: nat, row: Row): Store {
    s.(rows := s.rows[id := row])
  }

  /** `moveExhaustedRecoverableJobs` for one job. */
  function Exhaust(s: Store, id: nat, now: int): Store {
    if id in s.rows && s.rows[id].attempts >= s.rows[id].maxAttempts && (!s.rows[id].running || s.rows[id].expires <= now)
    then Remove(s, id, Dead(Exhausted))
    else s
  }

  predicate Claimable(row: Row, now: int, force: bool) {
    && (if row.running then row.expires <= now else force || row.runAt <= now)
    && row.attempts < row.maxAttempts
  }

  /** `claimRecoverableJob`. */
  function Claim(s: Store, id: nat, worker: string, now: int, visibility: nat, force: bool): Store {
    var s1 := Exhaust(s, id, now);
    if id in s1.rows && Claimable(s1.rows[id], now, force) then
      var row := s1.rows[id];
      var claimed := row.(running := true, worker := worker, token := row.token + 1, attempts := row.attempts + 1,
                          expires := now + visibility);
      Store(s1.rows[id := claimed],
            if id < |s1.jobs| then s1.jobs[id := s1.jobs[id].(claims := s1.jobs[id].claims + 1)] else s1.jobs)
    else s1
  }

  predicate Claims(s: Store, id: nat, now: int, force: bool) {
    id in Exhaust(s, id, now).rows && Claimable(Exhaust(s, id, now).rows[id], now, force)
  }

  function UpdatePayload(s: Store, id: nat, worker: string, token: nat, payload: string, now: int): Store {
    if Holds(s, id, worker, token, now) then Write(s, id, s.rows[id].(payload := payload)) else s
  }

  function Heartbeat(s: Store, id: nat, worker: string, token: nat, extend: nat, now: int): Store {
    if Holds(s, id, worker, token, now) then Write(s, id, s.rows[id].(expires := now + Max(1, extend))) else s
  }

  function Ack(s: Store, id: nat, worker: string, token: nat, now: int): Store {
    if Holds(s, id, worker, token, now) then Remove(s, id, Acked(token)) else s
  }

  function Fail(s: Store, id: nat, worker: string, token: nat, now: int): Store {
    if Holds(s, id, worker, token, now) then Remove(s, id, Dead(PermanentFailure)) else s
  }

  /** `retry`, and `releaseJob`, which differs in its delay only: back to pending, or dead when used up. */
  function Retry(s: Store, id: nat, worker: string, token: nat, delay: nat, now: int): Store {
    if !Holds(s, id, worker, token, now) then s
    else if s.rows[id].attempts >= s.rows[id].maxAttempts then Remove(s, id, Dead(Exhausted))
    else Write(s, id, s.rows[id].(running := false, worker := "", runAt := now + delay))
  }

  function Quarantine(s: Store, id: nat): Store {
    if id in s.rows then Remove(s, id, Dead(QuarantinedRow)) else s
  }
}
