/** What token fencing gives the workers. */
module DurableRetry {
  // Over every interleaving of their steps on one store, with clocks that need not agree.

  import opened JobStoreSpec
  import opened DurableRetrySpec
  import opened DurableRetryLaws

  /** All workers together, crashes and forced replays included, run a job at most `maxAttempts` times. */
  lemma RunsBounded(ops: seq<Op>, id: nat)
    requires id < |Run(ops).store.jobs|
    ensures CountOf(Run(ops).attempts, id) <= Run(ops).store.jobs[id].maxAttempts
  {
    hide Run, CountOf;
    RunInv(ops);
    assert JobOk(Run(ops).store, id);
  }

  /** A claim that has been followed by another one on the same job. */
  predicate Stale(y: System, i: nat) {
    i < |y.attempts| && exists j :: i < j < |y.attempts| && y.attempts[j].job == y.attempts[i].job
  }

  lemma StaleHoldsNothing(ops: seq<Op>, i: nat, now: int)
    requires Stale(Run(ops), i)
    ensures var y := Run(ops);
            var a := y.attempts[i]; !Holds(y.store, a.job, a.worker, a.token, now)
  {
    hide Run, CountsOk, AcksOk, SuccessesOk;
    RunInv(ops);
    var y := Run(ops);
    var j :| i < j < |y.attempts| && y.attempts[j].job == y.attempts[i].job;
    if y.attempts[i].job in y.store.rows {
      assert JobOk(y.store, y.attempts[i].job);
    }
  }

  /** Once a job has been claimed again, nothing the earlier attempt still does reaches the store. */
  lemma StaleIsInert(ops: seq<Op>, op: Op)
    requires OfAttempt(Run(ops), op) && Stale(Run(ops), op.i)
    ensures Apply(Run(ops), op).store == Run(ops).store
    ensures Apply(Run(ops), op).acks == Run(ops).acks
  {
    StaleHoldsNothing(ops, op.i, op.now);
    hide Run, Holds, Stale;
  }

  /** What the worker remembers of its claim is what the store would say: the token is the number of attempts. */
  lemma ClaimCountsAttempts(ops: seq<Op>, i: nat, now: int)
    requires Current(Run(ops), i, now)
    ensures var y := Run(ops);
            var row := y.store.rows[y.attempts[i].job];
            row.attempts == y.attempts[i].token <= row.maxAttempts && !Stale(y, i)
  {
    hide Run, CountsOk, AcksOk, SuccessesOk;
    RunInv(ops);
    var y := Run(ops);
    assert JobOk(y.store, y.attempts[i].job);
    if Stale(y, i) {
      StaleHoldsNothing(ops, i, now);
    }
  }

  /** The attempt whose claim is the one in the row, still unexpired. */
  predicate Current(y: System, i: nat, now: int) {
    && i < |y.attempts|
    && Holds(y.store, y.attempts[i].job, y.attempts[i].worker, y.attempts[i].token, now)
  }

  /** Only the current claim can write a payload, and only its own job's. */
  lemma PayloadByHolder(ops: seq<Op>, op: Op, id: nat)
    requires id in Run(ops).store.rows && id in Apply(Run(ops), op).store.rows
    requires Apply(Run(ops), op).store.rows[id].payload != Run(ops).store.rows[id].payload
    ensures op.DoUpdate? && Current(Run(ops), op.i, op.now) && Run(ops).attempts[op.i].job == id
    ensures !Stale(Run(ops), op.i) && Apply(Run(ops), op).store.rows[id].payload == op.payload
  {
    RunInv(ops);
    PayloadStep(Run(ops), op, id);
    hide Run, Apply, Inv;
    if Stale(Run(ops), op.i) {
      StaleHoldsNothing(ops, op.i, op.now);
    }
  }

  lemma PayloadStep(y: System, op: Op, id: nat)
    requires StoreOk(y.store) && id in y.store.rows && id in Apply(y, op).store.rows
    requires Apply(y, op).store.rows[id].payload != y.store.rows[id].payload
    ensures op.DoUpdate? && Current(y, op.i, op.now) && y.attempts[op.i].job == id
    ensures Apply(y, op).store.rows[id].payload == op.payload
  {
    assert id < |y.store.jobs|;
    hide StoreOk, FindKey;
  }

  // ----- After dispose -----

  /** The row is not under this attempt's claim, or only until a time; and the attempt has ended. */
  ghost predicate Released(y: System, i: nat, until: Option<int>) {
    && i < |y.attempts| && y.attempts[i].ended
    && (var a := y.attempts[i];
        a.job in y.store.rows && y.store.rows[a.job].running && y.store.rows[a.job].worker == a.worker
        && y.store.rows[a.job].token == a.token ==>
          until.Some? && y.store.rows[a.job].expires <= until.value)
  }

  lemma DisposeReleases(y: System, i: nat, now: int)
    requires i < |y.attempts| && !y.attempts[i].ended
    ensures Released(Apply(y, DoDispose(i, now)), i, if Current(y, i, now) then None else Some(now))
  {
  }

  lemma ReleasedStays(y: System, op: Op, i: nat, until: Option<int>)
    requires Inv(y) && Released(y, i, until)
    ensures Released(Apply(y, op), i, until)
    ensures Apply(y, op).attempts[i] == y.attempts[i]
  {
    var a := y.attempts[i];
    Fenced(y, i);
    hide Inv;
    if OfAttempt(y, op) && op.i != i {
      var b := y.attempts[op.i];
      if b.job == a.job {
        OtherToken(y, i, op.i);
      }
      hide Holds;
      ReleasedByOther(y, op, i, until);
    } else {
      hide FindKey;
    }
  }

  /** The token of an attempt is never above the row's, and belongs to a job already stored. */
  lemma Fenced(y: System, i: nat)
    requires Inv(y) && i < |y.attempts|
    ensures var a := y.attempts[i];
            a.job < |y.store.jobs| && (a.job in y.store.rows ==> a.token <= y.store.rows[a.job].token)
  {
    InvParts(y);
    var a := y.attempts[i];
    hide CountsOk, AcksOk, SuccessesOk;
    if a.job in y.store.rows {
      RowsKnown(y.store, a.job);
    }
  }

  lemma OtherToken(y: System, i: nat, j: nat)
    requires Inv(y) && i < |y.attempts| && j < |y.attempts| && i != j && y.attempts[i].job == y.attempts[j].job
    ensures y.attempts[i].token != y.attempts[j].token
  {
    InvParts(y);
    hide StoreOk, CountsOk, AcksOk, SuccessesOk;
  }

  lemma ReleasedByOther(y: System, op: Op, i: nat, until: Option<int>)
    requires Released(y, i, until) && OfAttempt(y, op) && op.i != i
    requires y.attempts[op.i].job == y.attempts[i].job ==> y.attempts[op.i].token != y.attempts[i].token
    ensures Released(Apply(y, op), i, until)
    ensures Apply(y, op).attempts[i] == y.attempts[i]
  {
  }

  ghost function After(y: System, ops: seq<Op>): System
    decreases |ops|
  {
    if ops == [] then y else After(Apply(y, ops[0]), ops[1..])
  }

  lemma {:induction false} ReleasedForever(y: System, ops: seq<Op>, i: nat, until: Option<int>)
    requires Inv(y) && Released(y, i, until)
    ensures Released(After(y, ops), i, until) && After(y, ops).attempts[i] == y.attempts[i]
    decreases |ops|
  {
    hide Inv, Released, Apply;
    if ops != [] {
      ApplyKeeps(y, ops[0]);
      ReleasedStays(y, ops[0], i, until);
      ReleasedForever(Apply(y, ops[0]), ops[1..], i, until);
    }
  }

  /**
   * A run that goes on after `dispose` writes nothing more, whatever happens in between: if its claim was current
   * the store refuses it at any time, and otherwise at any time from then on.
   */
  lemma DisposedWritesNothing(ops: seq<Op>, i: nat, now: int, more: seq<Op>, payload: string, later: int)
    requires OfAttempt(Run(ops), DoDispose(i, now)) && (Current(Run(ops), i, now) || now <= later)
    ensures var y := After(Apply(Run(ops), DoDispose(i, now)), more);
            && OfAttempt(y, DoUpdate(i, payload, later)) && !Current(y, i, later)
            && Apply(y, DoUpdate(i, payload, later)) == y
  {
    RunInv(ops);
    var y0 := Run(ops);
    hide Run, Inv;
    var y1 := Apply(y0, DoDispose(i, now));
    assert y1.attempts[i].disposed;
    ApplyKeeps(y0, DoDispose(i, now));
    DisposeReleases(y0, i, now);
    hide Apply, After, Holds;
    ReleasedForever(y1, more, i, if Current(y0, i, now) then None else Some(now));
    RefusedUpdate(After(y1, more), i, if Current(y0, i, now) then None else Some(now), payload, later);
  }

  lemma RefusedUpdate(y: System, i: nat, until: Option<int>, payload: string, later: int)
    requires Released(y, i, until) && y.attempts[i].disposed && (until.Some? ==> until.value <= later)
    ensures !Current(y, i, later) && Apply(y, DoUpdate(i, payload, later)) == y
  {
  }

  // ----- Leaving the live table -----

  /** The steps that may take a job out of the live table, each with its condition. */
  predicate MayRemove(y: System, op: Op, id: nat) {
    match op
    case DoEnqueue(_, _, _, _) => false
    case DoClaim(k, _, now, _, _) => k == id && UsedUp(y, id, now)
    case DoExhaust(k, now) => k == id && UsedUp(y, id, now)
    case DoQuarantine(k) => k == id
    case DoUpdate(_, _, _) => false
    case DoHeartbeat(_, _, _) => false
    case DoEnd(i, result, now) =>
      && Current(y, i, now) && !y.attempts[i].ended && y.attempts[i].job == id
      && match result {
           case Resolved => !y.attempts[i].aborted
           case Lost => false
           case Failed(retryable, _) => !retryable || LastAttempt(y, id)
         }
    case DoDispose(i, now) =>
      Current(y, i, now) && !y.attempts[i].ended && y.attempts[i].job == id && LastAttempt(y, id)
  }

  predicate LastAttempt(y: System, id: nat) {
    id in y.store.rows && y.store.rows[id].attempts >= y.store.rows[id].maxAttempts
  }

  predicate UsedUp(y: System, id: nat, now: int) {
    LastAttempt(y, id) && (!y.store.rows[id].running || y.store.rows[id].expires <= now)
  }

  /**
   * A job leaves the live table exactly on: the end of a completed run under the current claim, a permanent
   * failure under it, the last attempt failing or being released under it, an unclaimed job with no attempts
   * left being looked at, or quarantine.
   */
  lemma LeavesExactlyOn(ops: seq<Op>, op: Op, id: nat)
    requires id in Run(ops).store.rows
    ensures id !in Apply(Run(ops), op).store.rows <==> MayRemove(Run(ops), op, id)
  {
    RunInv(ops);
    LeavesStep(Run(ops), op, id);
    hide Run, Apply, Inv, MayRemove;
  }

  lemma LeavesStep(y: System, op: Op, id: nat)
    requires StoreOk(y.store) && id in y.store.rows
    ensures id !in Apply(y, op).store.rows <==> MayRemove(y, op, id)
  {
    assert id < |y.store.jobs|;
    hide StoreOk, FindKey;
  }

  /** Every job ever stored is live or met one end, and it is acknowledged by exactly one attempt or none. */
  lemma OneFate(ops: seq<Op>, id: nat)
    requires id < |Run(ops).store.jobs|
    ensures var y := Run(ops);
            var fate := y.store.jobs[id].fate;
            && (id in y.store.rows <==> fate.Live?)
            && (fate.Acked? <==> exists k: nat :: k < |y.acks| && AckedBy(y, k, id))
            && (forall k: nat, m: nat :: k < |y.acks| && m < |y.acks| && AckedBy(y, k, id) && AckedBy(y, m, id) ==> k == m)
            && (fate == Dead(Exhausted) ==> CountOf(y.attempts, id) == y.store.jobs[id].maxAttempts)
  {
    hide Run, CountOf, SuccessesOk, TokensOk;
    RunInv(ops);
    var y := Run(ops);
    assert JobOk(y.store, id);
    hide JobOk, StoreOk;
    forall k: nat | k < |y.acks| ensures AckOk(y.store.jobs, y.attempts, y.acks[k]) {
    }
    if y.store.jobs[id].fate.Acked? {
      var i :| i in y.acks && y.attempts[i].job == id;
      var k :| 0 <= k < |y.acks| && y.acks[k] == i;
      assert AckOk(y.store.jobs, y.attempts, y.acks[k]);
      assert AckedBy(y, k, id);
    }
  }

  /** The k-th acknowledgement was of this job, by an attempt whose run completed. */
  predicate AckedBy(y: System, k: nat, id: nat) {
    && k < |y.acks| && y.acks[k] < |y.attempts| && y.attempts[y.acks[k]].job == id
    && y.attempts[y.acks[k]].ended && !y.attempts[y.acks[k]].aborted
    && id < |y.store.jobs| && y.store.jobs[id].fate == Acked(y.attempts[y.acks[k]].token)
  }

  /** `onSuccess` only ever fires for a job that is no longer live, after a run of it that was not aborted. */
  lemma SuccessMeansGone(ops: seq<Op>, k: nat)
    requires k < |Run(ops).successes|
    ensures var y := Run(ops);
            var s := y.successes[k];
            && s.attempt < |y.attempts| && y.attempts[s.attempt].ended && !y.attempts[s.attempt].aborted
            && y.attempts[s.attempt].job !in y.store.rows && y.attempts[s.attempt].job < |y.store.jobs|
            && (s.acked <==> y.store.jobs[y.attempts[s.attempt].job].fate == Acked(y.attempts[s.attempt].token))
  {
    hide Run, TokensOk, CountsOk, AcksOk;
    RunInv(ops);
    var y := Run(ops);
    assert SuccessOk(y.store.jobs, y.attempts, y.successes[k]);
    assert JobOk(y.store, y.attempts[y.successes[k].attempt].job);
  }

  /**
   * What the callback does not say is that this attempt delivered the job. It does exactly when the claim is
   * still current at the end of the run; otherwise it fires as soon as the job is gone, however it went.
   */
  lemma SuccessIsOwnExactly(ops: seq<Op>, i: nat, now: int)
    requires i < |Run(ops).attempts| && !Run(ops).attempts[i].ended && !Run(ops).attempts[i].aborted
    ensures var y := Run(ops);
            var y' := Apply(y, DoEnd(i, Resolved, now));
            var gone := y.attempts[i].job !in y.store.rows;
            && (Current(y, i, now) <==> y'.successes == y.successes + [Success(i, true)])
            && (Current(y, i, now) <==> y'.acks == y.acks + [i])
            && (!Current(y, i, now) && gone <==> y'.successes == y.successes + [Success(i, false)])
            && y.attempts[i].job < |y'.store.jobs|
            && (Current(y, i, now) ==> y'.store.jobs[y.attempts[i].job].fate == Acked(y.attempts[i].token))
  {
    RunInv(ops);
    var y := Run(ops);
    assert y.attempts[i].job < |y.store.jobs|;
    hide Run, Inv;
    assert y.successes + [Success(i, true)] != y.successes && y.successes + [Success(i, false)] != y.successes;
    assert (y.successes + [Success(i, true)])[|y.successes|] != (y.successes + [Success(i, false)])[|y.successes|];
    assert y.acks + [i] != y.acks;
  }

  const PENDING := Row("k", "p", false, "", 0, 0, 0, 0, 1)
  const CLAIMED := Row("k", "p", true, "a", 1, 10, 0, 1, 1)
  const STORED := System(Store(map[0 := PENDING], [Info(Live, 0, 1)]), [], [], [])
  const RUNNING := System(Store(map[0 := CLAIMED], [Info(Live, 1, 1)]), [Attempt(0, "a", 1, false, false, false)], [], [])
  const EXPIRED := System(Store(map[], [Info(Dead(Exhausted), 1, 1)]), [Attempt(0, "a", 1, false, false, false)], [], [])

  lemma StoreOne()
    ensures Apply(Start(), DoEnqueue("k", "p", 0, 1)) == STORED
  {
  }

  lemma ClaimOne()
    ensures Apply(STORED, DoClaim(0, "a", 0, 10, false)) == RUNNING
  {
  }

  lemma ExhaustOne()
    ensures Apply(RUNNING, DoExhaust(0, 10)) == EXPIRED
  {
    assert map[0 := CLAIMED] - {0} == map[];
  }

  /** A schedule on which `onSuccess` fires for a job that is in the dead letters. */
  lemma SuccessAfterDeadLetter()
    ensures var y := Run([DoEnqueue("k", "p", 0, 1), DoClaim(0, "a", 0, 10, false), DoExhaust(0, 10),
                          DoEnd(0, Resolved, 11)]);
            y.successes == [Success(0, false)] && |y.store.jobs| == 1 && y.store.jobs[0].fate == Dead(Exhausted)
  {
    hide Run, Enqueue, Claim, ClaimStep, Exhaust;
    var o0, o1, o2, o3 := DoEnqueue("k", "p", 0, 1), DoClaim(0, "a", 0, 10, false), DoExhaust(0, 10), DoEnd(0, Resolved, 11);
    RunMore([], o0);
    RunMore([o0], o1);
    RunMore([o0, o1], o2);
    RunMore([o0, o1, o2], o3);
    assert [o0] + [o1] == [o0, o1] && [o0, o1] + [o2] == [o0, o1, o2] && [o0, o1, o2] + [o3] == [o0, o1, o2, o3];
    StoreOne();
    ClaimOne();
    ExhaustOne();
  }

  const WAITING := Row("k", "p", false, "", 0, 0, 0, 0, 2)
  const FIRST := Row("k", "p", true, "a", 1, 10, 0, 1, 2)
  const SECOND := Row("k", "p", true, "b", 2, 20, 0, 2, 2)
  const BY_A := Attempt(0, "a", 1, false, false, false)
  const BY_B := Attempt(0, "b", 2, false, false, false)
  const QUEUED := System(Store(map[0 := WAITING], [Info(Live, 0, 2)]), [], [], [])
  const HELD_BY_A := System(Store(map[0 := FIRST], [Info(Live, 1, 2)]), [BY_A], [], [])
  const HELD_BY_B := System(Store(map[0 := SECOND], [Info(Live, 2, 2)]), [BY_A, BY_B], [], [])
  const DONE_BY_B := System(Store(map[], [Info(Acked(2), 2, 2)]), [BY_A, BY_B.(ended := true)], [1], [Success(1, true)])

  lemma TwoClaims()
    ensures Apply(Start(), DoEnqueue("k", "p", 0, 2)) == QUEUED
    ensures Apply(QUEUED, DoClaim(0, "a", 0, 10, false)) == HELD_BY_A
    ensures Apply(HELD_BY_A, DoClaim(0, "b", 10, 10, false)) == HELD_BY_B
  {
  }

  lemma OneAck()
    ensures Apply(HELD_BY_B, DoEnd(1, Resolved, 11)) == DONE_BY_B
  {
    assert map[0 := SECOND] - {0} == map[];
  }

  lemma LateEnd()
    ensures Apply(DONE_BY_B, DoEnd(0, Resolved, 12)).successes == [Success(1, true), Success(0, false)]
  {
  }

  /** And one on which it fires twice: the run whose claim expired also completes. */
  lemma SuccessTwice()
    ensures Run([DoEnqueue("k", "p", 0, 2), DoClaim(0, "a", 0, 10, false), DoClaim(0, "b", 10, 10, false),
                 DoEnd(1, Resolved, 11), DoEnd(0, Resolved, 12)]).successes == [Success(1, true), Success(0, false)]
  {
    hide Run, Apply;
    var o0, o1, o2 := DoEnqueue("k", "p", 0, 2), DoClaim(0, "a", 0, 10, false), DoClaim(0, "b", 10, 10, false);
    var o3, o4 := DoEnd(1, Resolved, 11), DoEnd(0, Resolved, 12);
    RunMore([], o0);
    RunMore([o0], o1);
    RunMore([o0, o1], o2);
    RunMore([o0, o1, o2], o3);
    RunMore([o0, o1, o2, o3], o4);
    assert [o0] + [o1] == [o0, o1] && [o0, o1] + [o2] == [o0, o1, o2] && [o0, o1, o2] + [o3] == [o0, o1, o2, o3];
    assert [o0, o1, o2, o3] + [o4] == [o0, o1, o2, o3, o4];
    TwoClaims();
    OneAck();
    LateEnd();
  }

  lemma RunMore(ops: seq<Op>, op: Op)
    ensures Run(ops + [op]) == Apply(Run(ops), op) && Run([]) == Start()
    ensures [] + [op] == [op]
  {
    assert (ops + [op])[..|ops|] == ops;
  }

  /**
   * No job gets stuck: once a claim on it has run out, whoever tries next gets it with a new token, or finds
   * its attempts used up and puts it with the dead letters. A job waiting for a retry has to be due for that,
   * unless the claim is forced.
   */
  lemma NeverStuck(ops: seq<Op>, id: nat, worker: string, now: int, visibility: nat, force: bool)
    requires id in Run(ops).store.rows && visibility > 0
    requires var row := Run(ops).store.rows[id]; if row.running then row.expires <= now else force || row.runAt <= now
    ensures var y := Run(ops);
            var y' := Apply(y, DoClaim(id, worker, now, visibility, force));
            if LastAttempt(y, id) then
              id !in y'.store.rows && id < |y'.store.jobs| && y'.store.jobs[id].fate == Dead(Exhausted)
            else
              && |y'.attempts| == |y.attempts| + 1 && Current(y', |y.attempts|, now)
              && y'.attempts[|y.attempts|].job == id && y'.attempts[|y.attempts|].token == y.store.rows[id].token + 1
  {
    RunInv(ops);
    assert id < |Run(ops).store.jobs|;
    hide Run, Inv;
  }
}
