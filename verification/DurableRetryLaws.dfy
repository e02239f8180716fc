/** Token fencing, step by step. */
module DurableRetryLaws {
  // Token fencing: what every interleaving of workers on one store keeps.

  import opened JobStoreSpec
  import opened DurableRetrySpec

  // ----- What a step may change -----

  /** Jobs that have left the live table keep their fate, and all keep their number of claims. */
  ghost predicate FatesKept(jobs: seq<Info>, jobs': seq<Info>) {
    && |jobs| <= |jobs'|
    && (forall id :: 0 <= id < |jobs| && !jobs[id].fate.Live? ==> jobs'[id].fate == jobs[id].fate)
    && (forall id :: |jobs| <= id < |jobs'| ==> jobs'[id].fate.Live?)
  }

  ghost predicate ClaimsKept(jobs: seq<Info>, jobs': seq<Info>) {
    && |jobs| <= |jobs'|
    && (forall id :: 0 <= id < |jobs| ==> jobs'[id].claims == jobs[id].claims)
    && (forall id :: |jobs| <= id < |jobs'| ==> jobs'[id].claims == 0)
  }

  ghost predicate AttemptsKept(attempts: seq<Attempt>, attempts': seq<Attempt>) {
    && |attempts| == |attempts'|
    && forall i :: 0 <= i < |attempts| ==>
         && attempts'[i].job == attempts[i].job && attempts'[i].token == attempts[i].token
         && (attempts[i].ended ==> attempts'[i] == attempts[i])
  }

  lemma TokensKept(jobs: seq<Info>, jobs': seq<Info>, attempts: seq<Attempt>, attempts': seq<Attempt>)
    requires TokensOk(jobs, attempts) && ClaimsKept(jobs, jobs') && AttemptsKept(attempts, attempts')
    ensures TokensOk(jobs', attempts')
  {
  }

  lemma {:induction false} CountKept(attempts: seq<Attempt>, attempts': seq<Attempt>, id: nat)
    requires AttemptsKept(attempts, attempts')
    ensures CountOf(attempts', id) == CountOf(attempts, id)
  {
    if attempts != [] {
      CountKept(attempts[..|attempts| - 1], attempts'[..|attempts| - 1], id);
    }
  }

  lemma {:induction false} CountNone(attempts: seq<Attempt>, id: nat)
    requires forall i :: 0 <= i < |attempts| ==> attempts[i].job != id
    ensures CountOf(attempts, id) == 0
  {
    if attempts != [] {
      CountNone(attempts[..|attempts| - 1], id);
    }
  }

  lemma CountsKept(jobs: seq<Info>, jobs': seq<Info>, attempts: seq<Attempt>, attempts': seq<Attempt>)
    requires TokensOk(jobs, attempts)
    requires CountsOk(jobs, attempts) && ClaimsKept(jobs, jobs') && AttemptsKept(attempts, attempts')
    ensures CountsOk(jobs', attempts')
  {
    forall id | 0 <= id < |jobs'| ensures CountOf(attempts', id) == jobs'[id].claims {
      CountKept(attempts, attempts', id);
      if id >= |jobs| {
        CountNone(attempts, id);
      }
    }
  }

  lemma AcksKept(jobs: seq<Info>, jobs': seq<Info>, attempts: seq<Attempt>, attempts': seq<Attempt>, acks: seq<nat>)
    requires AcksOk(jobs, attempts, acks) && TokensOk(jobs, attempts)
    requires FatesKept(jobs, jobs') && AttemptsKept(attempts, attempts')
    requires forall id :: 0 <= id < |jobs| && jobs[id].fate.Live? ==> !jobs'[id].fate.Acked?
    ensures AcksOk(jobs', attempts', acks)
  {
    forall k | 0 <= k < |acks| ensures AckOk(jobs', attempts', acks[k]) {
      assert AckOk(jobs, attempts, acks[k]);
    }
    forall id | 0 <= id < |jobs'| && jobs'[id].fate.Acked? ensures exists i <- acks :: attempts'[i].job == id {
      var i :| i in acks && attempts[i].job == id;
      assert attempts'[i].job == id;
    }
  }

  lemma SuccessesKept(jobs: seq<Info>, jobs': seq<Info>, attempts: seq<Attempt>, attempts': seq<Attempt>,
                      successes: seq<Success>)
    requires SuccessesOk(jobs, attempts, successes) && FatesKept(jobs, jobs') && AttemptsKept(attempts, attempts')
    ensures SuccessesOk(jobs', attempts', successes)
  {
    forall k | 0 <= k < |successes| ensures SuccessOk(jobs', attempts', successes[k]) {
      assert SuccessOk(jobs, attempts, successes[k]);
    }
  }

  /** A step that acknowledges nothing and claims nothing keeps the books. */
  lemma QuietKeeps(y: System, s': Store, attempts': seq<Attempt>)
    requires Inv(y) && StoreOk(s') && ClaimsKept(y.store.jobs, s'.jobs) && FatesKept(y.store.jobs, s'.jobs)
    requires forall id :: 0 <= id < |y.store.jobs| && y.store.jobs[id].fate.Live? ==> !s'.jobs[id].fate.Acked?
    requires AttemptsKept(y.attempts, attempts')
    ensures Inv(y.(store := s', attempts := attempts'))
  {
    hide *;
    InvParts(y);
    TokensKept(y.store.jobs, s'.jobs, y.attempts, attempts');
    CountsKept(y.store.jobs, s'.jobs, y.attempts, attempts');
    AcksKept(y.store.jobs, s'.jobs, y.attempts, attempts', y.acks);
    SuccessesKept(y.store.jobs, s'.jobs, y.attempts, attempts', y.successes);
    InvFrom(y.(store := s', attempts := attempts'));
  }

  lemma InvParts(y: System)
    requires Inv(y)
    ensures StoreOk(y.store) && TokensOk(y.store.jobs, y.attempts) && CountsOk(y.store.jobs, y.attempts)
    ensures AcksOk(y.store.jobs, y.attempts, y.acks) && SuccessesOk(y.store.jobs, y.attempts, y.successes)
  {
    hide StoreOk, TokensOk, CountsOk, AcksOk, SuccessesOk;
  }

  lemma InvFrom(y: System)
    requires StoreOk(y.store) && TokensOk(y.store.jobs, y.attempts) && CountsOk(y.store.jobs, y.attempts)
    requires AcksOk(y.store.jobs, y.attempts, y.acks) && SuccessesOk(y.store.jobs, y.attempts, y.successes)
    ensures Inv(y)
  {
    hide StoreOk, TokensOk, CountsOk, AcksOk, SuccessesOk;
  }

  // ----- The store's own operations -----

  /** Neither the fates already met nor the claims change, and nothing is acknowledged. */
  ghost predicate Quiet(s: Store, s': Store) {
    && StoreOk(s') && ClaimsKept(s.jobs, s'.jobs) && FatesKept(s.jobs, s'.jobs)
    && forall id :: 0 <= id < |s.jobs| && s.jobs[id].fate.Live? ==> !s'.jobs[id].fate.Acked?
  }

  lemma WriteQuiet(s: Store, id: nat, row: Row)
    requires StoreOk(s) && id in s.rows
    requires row.token == s.rows[id].token && row.attempts == s.rows[id].attempts && row.maxAttempts == s.rows[id].maxAttempts
    ensures Quiet(s, Write(s, id, row))
  {
    var s' := Write(s, id, row);
    forall k | 0 <= k < |s'.jobs| ensures JobOk(s', k) {
      assert JobOk(s, k);
    }
  }

  lemma RemoveOk(s: Store, id: nat, fate: Fate)
    requires StoreOk(s) && id in s.rows && !fate.Live?
    requires fate == Dead(Exhausted) ==> s.rows[id].attempts >= s.rows[id].maxAttempts
    ensures StoreOk(Remove(s, id, fate)) && ClaimsKept(s.jobs, Remove(s, id, fate).jobs)
    ensures FatesKept(s.jobs, Remove(s, id, fate).jobs)
  {
    var s' := Remove(s, id, fate);
    assert JobOk(s, id);
    forall k | 0 <= k < |s'.jobs| ensures JobOk(s', k) {
      assert JobOk(s, k);
    }
  }

  lemma RemoveQuiet(s: Store, id: nat, fate: Fate)
    requires StoreOk(s) && id in s.rows && fate.Dead?
    requires fate == Dead(Exhausted) ==> s.rows[id].attempts >= s.rows[id].maxAttempts
    ensures Quiet(s, Remove(s, id, fate))
  {
    RemoveOk(s, id, fate);
    hide StoreOk, ClaimsKept, FatesKept;
  }

  lemma SameQuiet(s: Store)
    requires StoreOk(s)
    ensures Quiet(s, s)
  {
    hide StoreOk;
  }

  lemma EnqueueQuiet(s: Store, key: string, payload: string, now: int, maxAttempts: nat)
    requires StoreOk(s)
    ensures Quiet(s, Enqueue(s, key, payload, now, maxAttempts))
  {
    var s' := Enqueue(s, key, payload, now, maxAttempts);
    assert |s.jobs| !in s.rows;
    forall k | 0 <= k < |s'.jobs| ensures JobOk(s', k) {
      if k < |s.jobs| {
        assert JobOk(s, k);
      }
    }
  }

  lemma ExhaustQuiet(s: Store, id: nat, now: int)
    requires StoreOk(s)
    ensures Quiet(s, Exhaust(s, id, now))
  {
    hide Quiet, StoreOk, Remove;
    SameQuiet(s);
    if Exhaust(s, id, now) != s {
      RemoveQuiet(s, id, Dead(Exhausted));
    }
  }

  lemma HeldQuiet(s: Store, id: nat, worker: string, token: nat, now: int, payload: string, extend: nat)
    requires StoreOk(s)
    ensures Quiet(s, UpdatePayload(s, id, worker, token, payload, now))
    ensures Quiet(s, Heartbeat(s, id, worker, token, extend, now))
    ensures Quiet(s, Fail(s, id, worker, token, now))
  {
    hide Quiet, StoreOk, Remove, Write;
    SameQuiet(s);
    if Holds(s, id, worker, token, now) {
      WriteQuiet(s, id, s.rows[id].(payload := payload));
      WriteQuiet(s, id, s.rows[id].(expires := now + Max(1, extend)));
      RemoveQuiet(s, id, Dead(PermanentFailure));
    }
  }

  lemma RetryQuiet(s: Store, id: nat, worker: string, token: nat, delay: nat, now: int)
    requires StoreOk(s)
    ensures Quiet(s, Retry(s, id, worker, token, delay, now))
  {
    hide Quiet, StoreOk, Remove, Write;
    SameQuiet(s);
    if Holds(s, id, worker, token, now) {
      if s.rows[id].attempts >= s.rows[id].maxAttempts {
        RemoveQuiet(s, id, Dead(Exhausted));
      } else {
        WriteQuiet(s, id, s.rows[id].(running := false, worker := "", runAt := now + delay));
      }
    }
  }

  lemma QuarantineQuiet(s: Store, id: nat)
    requires StoreOk(s)
    ensures Quiet(s, Quarantine(s, id))
  {
    hide Quiet, StoreOk, Remove;
    SameQuiet(s);
    if id in s.rows {
      RemoveQuiet(s, id, Dead(QuarantinedRow));
    }
  }

  lemma QuietStep(y: System, s': Store, attempts': seq<Attempt>)
    requires Inv(y) && Quiet(y.store, s') && AttemptsKept(y.attempts, attempts')
    ensures Inv(y.(store := s', attempts := attempts'))
  {
    hide Inv, StoreOk, ClaimsKept, FatesKept, AttemptsKept;
    QuietKeeps(y, s', attempts');
  }

  lemma FlagsKept(attempts: seq<Attempt>, i: nat, a: Attempt)
    requires i < |attempts| && !attempts[i].ended && a.job == attempts[i].job && a.token == attempts[i].token
    ensures AttemptsKept(attempts, attempts[i := a])
  {
  }

  // ----- Claiming -----

  lemma ClaimedOk(s: Store, id: nat, row: Row)
    requires StoreOk(s) && id in s.rows && s.rows[id].attempts < s.rows[id].maxAttempts
    requires row.token == s.rows[id].token + 1 && row.attempts == s.rows[id].attempts + 1
    requires row.maxAttempts == s.rows[id].maxAttempts
    ensures StoreOk(Store(s.rows[id := row], s.jobs[id := s.jobs[id].(claims := s.jobs[id].claims + 1)]))
  {
    var s' := Store(s.rows[id := row], s.jobs[id := s.jobs[id].(claims := s.jobs[id].claims + 1)]);
    assert JobOk(s, id);
    forall k | 0 <= k < |s'.jobs| ensures JobOk(s', k) {
      assert JobOk(s, k);
    }
  }

  lemma ClaimedTokens(jobs: seq<Info>, attempts: seq<Attempt>, a: Attempt)
    requires TokensOk(jobs, attempts) && CountsOk(jobs, attempts) && a.job < |jobs| && a.token == jobs[a.job].claims + 1
    ensures var jobs' := jobs[a.job := jobs[a.job].(claims := a.token)];
            TokensOk(jobs', attempts + [a]) && CountsOk(jobs', attempts + [a])
  {
    var jobs' := jobs[a.job := jobs[a.job].(claims := a.token)];
    forall id | 0 <= id < |jobs'| ensures CountOf(attempts + [a], id) == jobs'[id].claims {
      assert (attempts + [a])[..|attempts|] == attempts;
    }
  }

  lemma ClaimedAcks(jobs: seq<Info>, attempts: seq<Attempt>, acks: seq<nat>, successes: seq<Success>, a: Attempt)
    requires AcksOk(jobs, attempts, acks) && SuccessesOk(jobs, attempts, successes)
    requires a.job < |jobs| && jobs[a.job].fate.Live?
    ensures var jobs' := jobs[a.job := jobs[a.job].(claims := a.token)];
            AcksOk(jobs', attempts + [a], acks) && SuccessesOk(jobs', attempts + [a], successes)
  {
    var jobs', attempts' := jobs[a.job := jobs[a.job].(claims := a.token)], attempts + [a];
    forall k | 0 <= k < |acks| ensures AckOk(jobs', attempts', acks[k]) {
      assert AckOk(jobs, attempts, acks[k]);
    }
    forall k | 0 <= k < |successes| ensures SuccessOk(jobs', attempts', successes[k]) {
      assert SuccessOk(jobs, attempts, successes[k]);
    }
    forall id | 0 <= id < |jobs'| && jobs'[id].fate.Acked? ensures exists i <- acks :: attempts'[i].job == id {
      var i :| i in acks && attempts[i].job == id;
      assert attempts'[i].job == id;
    }
  }

  /** The row as a granted claim leaves it. */
  function ClaimedRow(row: Row, worker: string, now: int, visibility: nat): Row {
    row.(running := true, worker := worker, token := row.token + 1, attempts := row.attempts + 1,
         expires := now + visibility)
  }

  /** A granted claim adds one to the row's token and hands that token to a new attempt. */
  lemma ClaimShape(y: System, id: nat, worker: string, now: int, visibility: nat, force: bool)
    requires Claims(y.store, id, now, force) && id < |Exhaust(y.store, id, now).jobs|
    ensures var s1 := Exhaust(y.store, id, now);
            var row := ClaimedRow(s1.rows[id], worker, now, visibility);
            ClaimStep(y, id, worker, now, visibility, force) ==
            y.(store := Store(s1.rows[id := row], s1.jobs[id := s1.jobs[id].(claims := s1.jobs[id].claims + 1)]),
               attempts := y.attempts + [Attempt(id, worker, row.token, false, false, false)])
  {
    hide Exhaust;
  }

  lemma ClaimKeeps(y: System, id: nat, worker: string, now: int, visibility: nat, force: bool)
    requires Inv(y)
    ensures Inv(ClaimStep(y, id, worker, now, visibility, force))
  {
    var s1 := Exhaust(y.store, id, now);
    ExhaustKeeps(y, id, now);
    if Claims(y.store, id, now, force) {
      var row := ClaimedRow(s1.rows[id], worker, now, visibility);
      hide Inv, ClaimStep, Exhaust;
      ClaimedKeeps(y.(store := s1), id, worker, row);
      ClaimShape(y, id, worker, now, visibility, force);
    } else {
      hide Inv, Exhaust;
    }
  }

  lemma ExhaustKeeps(y: System, id: nat, now: int)
    requires Inv(y)
    ensures Inv(y.(store := Exhaust(y.store, id, now)))
  {
    hide *;
    InvParts(y);
    ExhaustQuiet(y.store, id, now);
    FlagsSame(y.attempts);
    QuietStep(y, Exhaust(y.store, id, now), y.attempts);
  }

  lemma FlagsSame(attempts: seq<Attempt>)
    ensures AttemptsKept(attempts, attempts)
  {
  }

  lemma RowsKnown(s: Store, id: nat)
    requires StoreOk(s) && id in s.rows
    ensures id < |s.jobs| && JobOk(s, id) && s.jobs[id].fate.Live? && s.jobs[id].claims == s.rows[id].token
  {
    assert id < |s.jobs|;
    assert JobOk(s, id);
  }

  lemma ClaimedKeeps(y: System, id: nat, worker: string, row: Row)
    requires Inv(y) && id in y.store.rows && y.store.rows[id].attempts < y.store.rows[id].maxAttempts
    requires row.token == y.store.rows[id].token + 1 && row.attempts == y.store.rows[id].attempts + 1
    requires row.maxAttempts == y.store.rows[id].maxAttempts
    ensures id < |y.store.jobs|
    ensures var jobs := y.store.jobs;
            Inv(y.(store := Store(y.store.rows[id := row], jobs[id := jobs[id].(claims := jobs[id].claims + 1)]),
                   attempts := y.attempts + [Attempt(id, worker, row.token, false, false, false)]))
  {
    hide *;
    InvParts(y);
    RowsKnown(y.store, id);
    ClaimedOk(y.store, id, row);
    var a := Attempt(id, worker, row.token, false, false, false);
    ClaimedTokens(y.store.jobs, y.attempts, a);
    ClaimedAcks(y.store.jobs, y.attempts, y.acks, y.successes, a);
    var jobs := y.store.jobs;
    InvFrom(y.(store := Store(y.store.rows[id := row], jobs[id := jobs[id].(claims := jobs[id].claims + 1)]),
               attempts := y.attempts + [a]));
  }

  // ----- The end of an attempt -----

  lemma OwnQuiet(y: System, s': Store, i: nat, a: Attempt)
    requires Inv(y) && Quiet(y.store, s') && i < |y.attempts| && !y.attempts[i].ended
    requires a.job == y.attempts[i].job && a.token == y.attempts[i].token
    ensures Inv(y.(store := s', attempts := y.attempts[i := a]))
  {
    hide *;
    FlagsKept(y.attempts, i, a);
    QuietStep(y, s', y.attempts[i := a]);
  }

  /** An acknowledgement: the one step that makes a job `Acked`. */
  lemma AckedKeeps(y: System, i: nat)
    requires Inv(y) && i < |y.attempts| && !y.attempts[i].ended && !y.attempts[i].aborted
    requires y.attempts[i].job in y.store.rows && y.store.rows[y.attempts[i].job].token == y.attempts[i].token
    ensures var a := y.attempts[i];
            Inv(System(Remove(y.store, a.job, Acked(a.token)), y.attempts[i := a.(ended := true)], y.acks + [i],
                       y.successes + [Success(i, true)]))
  {
    var a := y.attempts[i];
    var s', attempts' := Remove(y.store, a.job, Acked(a.token)), y.attempts[i := a.(ended := true)];
    hide *;
    InvParts(y);
    RowsKnown(y.store, a.job);
    RemoveOk(y.store, a.job, Acked(a.token));
    FlagsKept(y.attempts, i, a.(ended := true));
    TokensKept(y.store.jobs, s'.jobs, y.attempts, attempts');
    CountsKept(y.store.jobs, s'.jobs, y.attempts, attempts');
    SuccessesKept(y.store.jobs, s'.jobs, y.attempts, attempts', y.successes);
    Removed(y.store, a.job, Acked(a.token));
    AckedAcks(y.store.jobs, y.attempts, y.acks, i);
    AckedSuccess(s'.jobs, attempts', y.successes, i);
    InvFrom(System(s', attempts', y.acks + [i], y.successes + [Success(i, true)]));
  }

  lemma Removed(s: Store, id: nat, fate: Fate)
    requires id < |s.jobs|
    ensures Remove(s, id, fate).jobs == s.jobs[id := s.jobs[id].(fate := fate)]
  {
  }

  lemma AckedAcks(jobs: seq<Info>, attempts: seq<Attempt>, acks: seq<nat>, i: nat)
    requires AcksOk(jobs, attempts, acks) && TokensOk(jobs, attempts)
    requires i < |attempts| && !attempts[i].ended && !attempts[i].aborted
    requires attempts[i].job < |jobs| && jobs[attempts[i].job].fate.Live?
    ensures var a := attempts[i];
            AcksOk(jobs[a.job := jobs[a.job].(fate := Acked(a.token))], attempts[i := a.(ended := true)], acks + [i])
  {
    var a := attempts[i];
    var jobs', attempts' := jobs[a.job := jobs[a.job].(fate := Acked(a.token))], attempts[i := a.(ended := true)];
    forall k | 0 <= k < |acks| ensures AckOk(jobs', attempts', acks[k]) && acks[k] != i && attempts[acks[k]].job != a.job {
      assert AckOk(jobs, attempts, acks[k]);
    }
    assert AckOk(jobs', attempts', i);
    hide AckOk;
    forall id | 0 <= id < |jobs'| && jobs'[id].fate.Acked? ensures exists k <- acks + [i] :: attempts'[k].job == id {
      if id == a.job {
        assert i in acks + [i] && attempts'[i].job == id;
      } else {
        var k :| k in acks && attempts[k].job == id;
        assert k in acks + [i] && attempts'[k].job == id;
      }
    }
  }

  lemma AckedSuccess(jobs: seq<Info>, attempts: seq<Attempt>, successes: seq<Success>, i: nat)
    requires SuccessesOk(jobs, attempts, successes) && i < |attempts| && attempts[i].ended && !attempts[i].aborted
    requires attempts[i].job < |jobs| && !jobs[attempts[i].job].fate.Live?
    ensures SuccessesOk(jobs, attempts,
              successes + [Success(i, jobs[attempts[i].job].fate == Acked(attempts[i].token))])
  {
    hide SuccessOk;
    var s := Success(i, jobs[attempts[i].job].fate == Acked(attempts[i].token));
    assert SuccessOk(jobs, attempts, s) by { SuccessIs(jobs, attempts, i); }
  }

  lemma SuccessIs(jobs: seq<Info>, attempts: seq<Attempt>, i: nat)
    requires i < |attempts| && attempts[i].ended && !attempts[i].aborted
    requires attempts[i].job < |jobs| && !jobs[attempts[i].job].fate.Live?
    ensures SuccessOk(jobs, attempts, Success(i, jobs[attempts[i].job].fate == Acked(attempts[i].token)))
  {
  }

  /** A run that completes after its job has gone: the callback fires although another step decided the job. */
  lemma LateKeeps(y: System, i: nat)
    requires Inv(y) && i < |y.attempts| && !y.attempts[i].ended && !y.attempts[i].aborted
    requires y.attempts[i].job !in y.store.rows
    ensures Inv(y.(attempts := y.attempts[i := y.attempts[i].(ended := true)], successes := y.successes + [Success(i, false)]))
  {
    var a := y.attempts[i];
    var attempts' := y.attempts[i := a.(ended := true)];
    InvParts(y);
    Gone(y, i);
    SameQuiet(y.store);
    hide *;
    OwnQuiet(y, y.store, i, a.(ended := true));
    var y1 := y.(attempts := attempts');
    InvParts(y1);
    AckedSuccess(y.store.jobs, attempts', y.successes, i);
    InvFrom(y1.(successes := y.successes + [Success(i, false)]));
  }

  lemma Gone(y: System, i: nat)
    requires Inv(y) && i < |y.attempts| && !y.attempts[i].ended && y.attempts[i].job !in y.store.rows
    ensures var a := y.attempts[i];
            a.job < |y.store.jobs| && !y.store.jobs[a.job].fate.Live? && y.store.jobs[a.job].fate != Acked(a.token)
  {
    assert JobOk(y.store, y.attempts[i].job);
    hide SuccessesOk, CountsOk, JobOk;
  }

  lemma ResolvedKeeps(y: System, i: nat, now: int)
    requires Inv(y) && i < |y.attempts| && !y.attempts[i].ended
    ensures Inv(EndResolved(y, i, now))
  {
    InvParts(y);
    SameQuiet(y.store);
    var a := y.attempts[i];
    hide Inv, Quiet, Remove, StoreOk, TokensOk, CountsOk, AcksOk, SuccessesOk;
    OwnQuiet(y, y.store, i, a.(ended := true));
    if !a.aborted {
      if Holds(y.store, a.job, a.worker, a.token, now) {
        AckedKeeps(y, i);
      } else if a.job !in y.store.rows {
        LateKeeps(y, i);
      }
    }
  }

  lemma OwnKeeps(y: System, op: Op)
    requires Inv(y) && OfAttempt(y, op)
    ensures Inv(ApplyOwn(y, op))
  {
    InvParts(y);
    var a := y.attempts[op.i];
    SameQuiet(y.store);
    hide Inv, Quiet, StoreOk, TokensOk, CountsOk, AcksOk, SuccessesOk, UpdatePayload, Heartbeat, Retry, Fail, EndResolved;
    match op
    case DoUpdate(i, payload, now) =>
      HeldQuiet(y.store, a.job, a.worker, a.token, now, payload, 0);
      StoreStepKeeps(y, UpdatePayload(y.store, a.job, a.worker, a.token, payload, now));
    case DoHeartbeat(i, extend, now) =>
      HeldQuiet(y.store, a.job, a.worker, a.token, now, "", extend);
      assert y.attempts[i := a] == y.attempts;
      OwnQuiet(y, Heartbeat(y.store, a.job, a.worker, a.token, extend, now), i, a);
      OwnQuiet(y, y.store, i, a.(aborted := true));
    case DoDispose(i, now) =>
      RetryQuiet(y.store, a.job, a.worker, a.token, 0, now);
      OwnQuiet(y, Retry(y.store, a.job, a.worker, a.token, 0, now), i, a.(aborted := true, ended := true, disposed := true));
    case DoEnd(i, result, now) =>
      EndKeeps(y, i, result, now);
  }

  lemma EndKeeps(y: System, i: nat, result: RunResult, now: int)
    requires Inv(y) && i < |y.attempts| && !y.attempts[i].ended
    ensures Inv(End(y, i, result, now))
  {
    InvParts(y);
    var a := y.attempts[i];
    SameQuiet(y.store);
    hide Inv, Quiet, StoreOk, TokensOk, CountsOk, AcksOk, SuccessesOk, Retry, Fail, EndResolved;
    match result
    case Resolved => ResolvedKeeps(y, i, now);
    case Lost => OwnQuiet(y, y.store, i, a.(ended := true));
    case Failed(retryable, delay) =>
      HeldQuiet(y.store, a.job, a.worker, a.token, now, "", 0);
      RetryQuiet(y.store, a.job, a.worker, a.token, delay, now);
      OwnQuiet(y, Retry(y.store, a.job, a.worker, a.token, delay, now), i, a.(ended := true));
      OwnQuiet(y, Fail(y.store, a.job, a.worker, a.token, now), i, a.(ended := true));
  }

  lemma StoreStepKeeps(y: System, s': Store)
    requires Inv(y) && Quiet(y.store, s')
    ensures Inv(y.(store := s'))
  {
    hide *;
    FlagsSame(y.attempts);
    QuietStep(y, s', y.attempts);
  }

  lemma ApplyKeeps(y: System, op: Op)
    requires Inv(y)
    ensures Inv(Apply(y, op))
  {
    InvParts(y);
    hide Inv, StoreOk, TokensOk, CountsOk, AcksOk, SuccessesOk, Quiet, ClaimStep, Enqueue, Exhaust, Quarantine, ApplyOwn;
    match op
    case DoEnqueue(key, payload, now, maxAttempts) =>
      EnqueueQuiet(y.store, key, payload, now, maxAttempts);
      StoreStepKeeps(y, Enqueue(y.store, key, payload, now, maxAttempts));
    case DoClaim(id, worker, now, visibility, force) => ClaimKeeps(y, id, worker, now, visibility, force);
    case DoExhaust(id, now) => ExhaustKeeps(y, id, now);
    case DoQuarantine(id) =>
      QuarantineQuiet(y.store, id);
      StoreStepKeeps(y, Quarantine(y.store, id));
    case _ =>
      if OfAttempt(y, op) {
        OwnKeeps(y, op);
      }
  }

  lemma StartOk()
    ensures Inv(Start())
  {
    hide StoreOk, TokensOk, CountsOk, AcksOk, SuccessesOk;
    EmptyStoreOk();
    EmptyBooksOk();
    InvFrom(Start());
  }

  lemma EmptyStoreOk()
    ensures StoreOk(NewStore())
  {
    hide JobOk;
  }

  lemma EmptyBooksOk()
    ensures TokensOk([], []) && CountsOk([], []) && AcksOk([], [], []) && SuccessesOk([], [], [])
  {
    hide AckOk, SuccessOk, CountOf;
  }

  lemma {:induction false} RunInv(ops: seq<Op>)
    ensures Inv(Run(ops))
  {
    hide Inv, Apply, Start;
    if ops == [] {
      StartOk();
    } else {
      RunInv(ops[..|ops| - 1]);
      ApplyKeeps(Run(ops[..|ops| - 1]), ops[|ops| - 1]);
    }
  }
}
