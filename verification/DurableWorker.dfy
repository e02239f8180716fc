/** The job table as an object, and one durable attempt of `OutputPersistenceRetryQueue` working on it. */
module DurableWorker {
  import opened JobStoreSpec
  import opened DurableRetrySpec

  class JobStore {
    var rows: map<nat, Row>
    var jobs: seq<Info>       // the observer's record, one per job ever stored

    function View(): Store
      reads this
    {
      Store(rows, jobs)
    }

    constructor ()
      ensures View() == NewStore()
    {
      rows, jobs := map[], [];
    }

    method RemoveRow(id: nat, fate: Fate)
      modifies this
      ensures View() == Remove(old(View()), id, fate)
    {
      rows := rows - {id};
      if id < |jobs| {
        jobs := jobs[id := jobs[id].(fate := fate)];
      }
    }

    /** Inserts a job, or gives the live job that already has this key. */
    method EnqueueJob(key: string, payload: string, now: int, maxAttempts: nat) returns (id: nat)
      modifies this
      ensures View() == Enqueue(old(View()), key, payload, now, maxAttempts)
      ensures id in rows && rows[id].key == key
    {
      var existing := FindKey(View(), key, 0);
      if existing.Some? {
        return existing.value;
      }
      id := |jobs|;
      var most := Max(1, maxAttempts);
      rows := rows[id := Row(key, payload, false, "", 0, 0, now, 0, most)];
      jobs := jobs + [Info(Live, 0, most)];
    }

    method MoveExhausted(id: nat, now: int)
      modifies this
      ensures View() == Exhaust(old(View()), id, now)
    {
      if id in rows && rows[id].attempts >= rows[id].maxAttempts && (!rows[id].running || rows[id].expires <= now) {
        RemoveRow(id, Dead(Exhausted));
      }
    }

    method ClaimRecoverableJob(id: nat, worker: string, now: int, visibility: nat, force: bool)
      returns (claimed: Option<Row>)
      modifies this
      ensures View() == Claim(old(View()), id, worker, now, visibility, force)
      ensures claimed.Some? <==> Claims(old(View()), id, now, force)
      ensures claimed.Some? ==> id in rows && claimed.value == rows[id]
    {
      hide Exhaust;
      MoveExhausted(id, now);
      if id !in rows || !Claimable(rows[id], now, force) {
        return None;
      }
      var row := rows[id];
      row := row.(running := true, worker := worker, token := row.token + 1, attempts := row.attempts + 1,
                  expires := now + visibility);
      rows := rows[id := row];
      if id < |jobs| {
        jobs := jobs[id := jobs[id].(claims := jobs[id].claims + 1)];
      }
      claimed := Some(row);
    }

    method UpdateJobPayload(id: nat, worker: string, token: nat, payload: string, now: int) returns (done: bool)
      modifies this
      ensures View() == UpdatePayload(old(View()), id, worker, token, payload, now)
      ensures done == Holds(old(View()), id, worker, token, now)
    {
      done := Holds(View(), id, worker, token, now);
      if done {
        rows := rows[id := rows[id].(payload := payload)];
      }
    }

    method HeartbeatJob(id: nat, worker: string, token: nat, extend: nat, now: int) returns (done: bool)
      modifies this
      ensures View() == Heartbeat(old(View()), id, worker, token, extend, now)
      ensures done == Holds(old(View()), id, worker, token, now)
    {
      done := Holds(View(), id, worker, token, now);
      if done {
        rows := rows[id := rows[id].(expires := now + Max(1, extend))];
      }
    }

    method AckJob(id: nat, worker: string, token: nat, now: int) returns (done: bool)
      modifies this
      ensures View() == Ack(old(View()), id, worker, token, now)
      ensures done == Holds(old(View()), id, worker, token, now)
    {
      done := Holds(View(), id, worker, token, now);
      if done {
        RemoveRow(id, Acked(token));
      }
    }

    method FailJob(id: nat, worker: string, token: nat, now: int) returns (done: bool)
      modifies this
      ensures View() == Fail(old(View()), id, worker, token, now)
      ensures done == Holds(old(View()), id, worker, token, now)
    {
      done := Holds(View(), id, worker, token, now);
      if done {
        RemoveRow(id, Dead(PermanentFailure));
      }
    }

    method RetryJob(id: nat, worker: string, token: nat, delay: nat, now: int) returns (done: bool)
      modifies this
      ensures View() == Retry(old(View()), id, worker, token, delay, now)
      ensures done == Holds(old(View()), id, worker, token, now)
    {
      done := Holds(View(), id, worker, token, now);
      if done {
        if rows[id].attempts >= rows[id].maxAttempts {
          RemoveRow(id, Dead(Exhausted));
        } else {
          rows := rows[id := rows[id].(running := false, worker := "", runAt := now + delay)];
        }
      }
    }

    method QuarantineJob(id: nat) returns (done: bool)
      modifies this
      ensures View() == Quarantine(old(View()), id) && done == (id in old(rows))
    {
      done := id in rows;
      if done {
        RemoveRow(id, Dead(QuarantinedRow));
      }
    }
  }

  /** What the queue does when an attempt is over. */
  datatype Ending = SuccessCallback(acked: bool) | ClaimLost | DeadLettered | Rescheduled

  class DurableAttempt {
    const job: nat
    const worker: string
    const token: nat
    var aborted: bool
    var ended: bool
    var disposed: bool

    function View(): Attempt
      reads this
    {
      Attempt(job, worker, token, aborted, ended, disposed)
    }

    /** This attempt alone with the store: what its own steps can see. */
    function Alone(store: JobStore): System
      reads this, store
    {
      System(store.View(), [View()], [], [])
    }

    constructor (job: nat, worker: string, token: nat)
      ensures View() == Attempt(job, worker, token, false, false, false)
    {
      this.job, this.worker, this.token := job, worker, token;
      aborted, ended, disposed := false, false, false;
    }

    /** The callback handed to `run`, which may outlive `dispose`; a refusal is raised there as a lost claim. */
    method UpdatePayload(store: JobStore, payload: string, now: int) returns (updated: bool)
      requires !ended || disposed
      modifies store
      ensures Alone(store) == Apply(old(Alone(store)), DoUpdate(0, payload, now))
      ensures updated == Holds(old(store.View()), job, worker, token, now)
    {
      updated := store.UpdateJobPayload(job, worker, token, payload, now);
    }

    method HeartbeatTick(store: JobStore, extend: nat, now: int)
      requires !ended
      modifies this, store
      ensures Alone(store) == Apply(old(Alone(store)), DoHeartbeat(0, extend, now))
    {
      var renewed := store.HeartbeatJob(job, worker, token, extend, now);
      if !renewed {
        aborted := true;
      }
    }

    /**
     * The rest of `attempt` once `run` has ended; `attempts` and `maxAttempts` are those of the claim, which are the
     * row's as long as the claim is current (ClaimCountsAttempts).
     */
    method RunEnded(store: JobStore, result: RunResult, attempts: nat, maxAttempts: nat, now: int)
      returns (ending: Ending)
      requires !ended
      requires Holds(store.View(), job, worker, token, now) ==>
                 store.rows[job].attempts == attempts && store.rows[job].maxAttempts == maxAttempts
      modifies this, store
      ensures var y, y' := old(Alone(store)), Apply(old(Alone(store)), DoEnd(0, result, now));
              && store.View() == y'.store && [View()] == y'.attempts
              && (ending == SuccessCallback(true) <==> y'.acks == [0])
              && (ending == SuccessCallback(false) <==> y'.successes == [Success(0, false)])
              && (ending.DeadLettered? || ending.Rescheduled? <==>
                    result.Failed? && Holds(y.store, job, worker, token, now))
      ensures ending.Rescheduled? ==>
                && result.retryable && job in store.rows
                && store.rows[job] == old(store.rows)[job].(running := false, worker := "", runAt := now + result.delay)
      ensures ending.DeadLettered? ==>
                && job !in store.rows
                && (job < |store.jobs| ==>
                      store.jobs[job].fate == Dead(if result.retryable then Exhausted else PermanentFailure))
    {
      ended := true;
      if result.Lost? || (result.Resolved? && aborted) {
        return ClaimLost;
      }
      if result.Resolved? {
        var acked := store.AckJob(job, worker, token, now);
        ghost var first: seq<nat>, mine, late := [] + [0], [] + [Success(0, true)], [] + [Success(0, false)];
        assert first == [0] && mine[0] != late[0];
        if !acked && job in store.rows {
          return ClaimLost;
        }
        return SuccessCallback(acked);
      }
      var done;
      if result.retryable {
        done := store.RetryJob(job, worker, token, result.delay, now);
      } else {
        done := store.FailJob(job, worker, token, now);
      }
      if !done {
        return ClaimLost;
      }
      ending := if !result.retryable || attempts >= maxAttempts then DeadLettered else Rescheduled;
    }

    method Dispose(store: JobStore, now: int)
      requires !ended
      modifies this, store
      ensures Alone(store) == Apply(old(Alone(store)), DoDispose(0, now))
    {
      aborted, ended, disposed := true, true, true;
      var _ := store.RetryJob(job, worker, token, 0, now);
    }
  }

  /** An attempt's own steps act in the whole system as they do on the attempt alone. */
  lemma StepIsLocal(y: System, op: Op)
    requires OfAttempt(y, op)
    ensures var alone := Apply(System(y.store, [y.attempts[op.i]], [], []), op.(i := 0));
            var y' := Apply(y, op);
            && y'.store == alone.store && y'.attempts == y.attempts[op.i := alone.attempts[0]]
            && (y'.acks == y.acks <==> alone.acks == []) && (y'.acks == y.acks + [op.i] <==> alone.acks == [0])
            && |y'.successes| == |y.successes| + |alone.successes|
  {
    assert y.attempts[op.i := y.attempts[op.i]] == y.attempts;
    assert y.acks + [op.i] != y.acks;
  }
}
