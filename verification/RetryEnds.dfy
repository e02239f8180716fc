/** When the retry queue gives a job up. */
module RetryEnds {
  // When the in-memory retry queue gives a job up, and what each of its dead letters means.

  import opened JsMap
  import opened RetrySpec
  import opened RetryLaws
  import opened RetryDrain

  /** The attempt of this key is running. */
  predicate Runs(q: Queue, key: string) {
    key in q.pending.vals && q.pending.vals[key].running
  }

  /** The steps that a pending job does not survive. */
  predicate EndsJob(l: Limits, q: Queue, op: Op, key: string) {
    || op.DoDispose?
    || (op.DoSettle? && op.key == key && Runs(q, key)
        && (op.outcome.Fails? && op.outcome.retryable ==> q.pending.vals[key].attempts == l.maxAttempts))
  }

  /** The one step, at each moment, that earns a dead letter of each kind. */
  predicate Earns(l: Limits, q: Queue, op: Op, d: DeadLetter) {
    match d.reason
    case MaxAttempts =>
      op == DoSettle(d.key, Fails(true)) && Runs(q, d.key) && d.attempts == q.pending.vals[d.key].attempts == l.maxAttempts
    case Permanent =>
      op == DoSettle(d.key, Fails(false)) && Runs(q, d.key) && d.attempts == q.pending.vals[d.key].attempts
    case CapacityExceeded =>
      op == DoEnqueue(d.key) && d.attempts == 0 && !q.disposed && d.key !in q.pending.vals
      && |q.pending.keys| == l.maxPending
    case Quarantined => op == DoQuarantine(d.key) && d.attempts == 0 && !q.disposed
  }

  // ----- Steps that start attempts -----

  lemma StartLeaves(l: Limits, q: Queue, key: string, force: bool)
    requires Inv(l, q) && key in q.pending.vals
    ensures var q', job := StartAttempt(ClearTimer(q, key), key, force), q.pending.vals[key];
            && q'.everDead == q.everDead && q'.disposed == q.disposed && q'.pending.vals.Keys == q.pending.vals.Keys
            && (forall k <- q.pending.vals :: q'.pending.vals[k].id == q.pending.vals[k].id)
            && |q'.tallies| == |q.tallies|
            && (forall i :: 0 <= i < |q.tallies| ==>
                  && q'.tallies[i].dead == q.tallies[i].dead && q'.tallies[i].key == q.tallies[i].key
                  && (i != job.id ==> q'.tallies[i] == q.tallies[i]))
  {
    hide StartAttempt, ClearTimer, LastN;
    ForcedStart(l, q, key, force);
    JobOf(l, q, key);
    hide Inv;
  }

  /** A job that has ended is not touched by what starts others. */
  ghost predicate Starts(q: Queue, q': Queue) {
    && q'.everDead == q.everDead && q'.disposed == q.disposed && |q'.tallies| == |q.tallies|
    && (forall k <- q.pending.vals :: k in q'.pending.vals && q'.pending.vals[k].id == q.pending.vals[k].id)
    && (forall i :: 0 <= i < |q.tallies| ==>
          && q'.tallies[i].dead == q.tallies[i].dead && q'.tallies[i].key == q.tallies[i].key
          && (q.tallies[i].dead == 1 ==> q'.tallies[i] == q.tallies[i]))
  }

  lemma StartStarts(l: Limits, q: Queue, key: string, force: bool)
    requires Inv(l, q) && key in q.pending.vals
    ensures Starts(q, StartAttempt(ClearTimer(q, key), key, force))
  {
    hide StartAttempt, ClearTimer, LastN;
    StartLeaves(l, q, key, force);
    JobOf(l, q, key);
    hide Inv;
  }

  lemma StartsTwice(a: Queue, b: Queue, c: Queue)
    requires Starts(a, b) && Starts(b, c)
    ensures Starts(a, c)
  {
  }

  lemma {:induction false} FlushStarts(l: Limits, q: Queue, keys: seq<string>)
    requires Inv(l, q)
    ensures Starts(q, FlushKeys(q, keys))
    decreases |keys|
  {
    hide Inv, StartAttempt, ClearTimer, Starts;
    if keys == [] {
      StartsItself(q);
    } else if keys[0] in q.pending.vals {
      var next := StartAttempt(ClearTimer(q, keys[0]), keys[0], true);
      StartStarts(l, q, keys[0], true);
      ForcedStartKeeps(l, q, keys[0], true);
      FlushStarts(l, next, keys[1..]);
      StartsTwice(q, next, FlushKeys(q, keys));
    } else {
      FlushStarts(l, q, keys[1..]);
    }
  }

  lemma StartsItself(q: Queue)
    ensures Starts(q, q)
  {
  }

  lemma TimerStarts(l: Limits, q: Queue, key: string)
    requires Inv(l, q)
    ensures Starts(q, TimerFires(q, key))
  {
    hide Inv, StartAttempt, ClearTimer, Starts;
    StartsItself(q);
    if key in q.pending.vals {
      StartStarts(l, q, key, false);
    }
  }

  // ----- An arrival -----

  /** A key that is pending is only started again; a new one is accepted, and runs at once, while there is room. */
  lemma ArrivalExactly(l: Limits, q: Queue, key: string)
    requires ValidLimits(l) && Inv(l, q) && !q.disposed
    ensures var q' := Enqueue(l, q, key);
            if key in q.pending.vals then Starts(q, q')
            else if |q.pending.keys| == l.maxPending then
              && q'.everDead == q.everDead + [DeadLetter(key, 0, CapacityExceeded)]
              && q'.pending == q.pending && q'.tallies == q.tallies
            else
              && q'.everDead == q.everDead && q'.tallies == q.tallies + [Tally(key, 1, 0, 0, 0, 0)]
              && q'.pending.vals == q.pending.vals[key := Job(|q.tallies|, 1, true, false, false)]
  {
    if key in q.pending.vals {
      ReplayIsForced(l, q, key);
      hide Inv, Replay, StartAttempt, ClearTimer, Starts;
      StartStarts(l, q, key, true);
    } else {
      hide Inv, LastN, Starts;
      FitsIn(l, q);
      var id := |q.tallies|;
      assert (q.tallies + [Tally(key, 0, 0, 0, 0, 0)])[id := Tally(key, 1, 0, 0, 0, 0)] == q.tallies + [Tally(key, 1, 0, 0, 0, 0)];
      Overwrite(q.pending.vals, key, Job(id, 0, false, false, false), Job(id, 1, true, false, false));
    }
  }

  lemma FitsIn(l: Limits, q: Queue)
    requires Inv(l, q)
    ensures |q.pending.keys| <= l.maxPending
  {
  }

  // ----- The end of an attempt -----

  /** A failure that may be retried, before the last attempt, keeps the job: with its timer, or at once if asked for. */
  lemma RetryableStays(l: Limits, ops: seq<Op>, key: string)
    requires ValidLimits(l) && Runs(Run(l, ops), key) && Run(l, ops).pending.vals[key].attempts < l.maxAttempts
    ensures var q, q' := Run(l, ops), Run(l, ops + [DoSettle(key, Fails(true))]);
            var job := q.pending.vals[key];
            && q'.everDead == q.everDead
            && q'.pending.vals == q.pending.vals[key :=
                 if job.force then job.(attempts := job.attempts + 1, force := false)
                 else job.(running := false, timer := true)]
  {
    hide Run, Inv, Settle;
    RunInv(l, ops);
    RunPush(l, ops, DoSettle(key, Fails(true)));
    RetryableKept(l, Run(l, ops), key);
  }

  lemma RetryableKept(l: Limits, q: Queue, key: string)
    requires Inv(l, q) && Runs(q, key) && q.pending.vals[key].attempts < l.maxAttempts
    ensures var q', job := Settle(l, q, key, Fails(true)), q.pending.vals[key];
            && q'.everDead == q.everDead
            && q'.pending.vals == q.pending.vals[key :=
                 if job.force then job.(attempts := job.attempts + 1, force := false)
                 else job.(running := false, timer := true)]
  {
    hide LastN, Reschedule, Note;
    JobOf(l, q, key);
    hide Inv;
    RescheduleEffect(q, key);
    RescheduleQuiet(q, key, q.pending.vals[key]);
  }

  lemma RunNone(l: Limits)
    ensures Run(l, []) == Empty()
  {
  }

  lemma RunPush(l: Limits, ops: seq<Op>, op: Op)
    ensures Run(l, ops + [op]) == Apply(l, Run(l, ops), op)
  {
    assert (ops + [op])[..|ops|] == ops;
  }

  lemma RescheduleQuiet(q: Queue, key: string, job: Job)
    requires key in q.pending.vals && job == q.pending.vals[key]
    ensures Reschedule(q, key, job).everDead == q.everDead && Reschedule(q, key, job).disposed == q.disposed
    ensures |Reschedule(q, key, job).tallies| == |q.tallies|
    ensures forall i :: 0 <= i < |q.tallies| ==>
              && Reschedule(q, key, job).tallies[i].dead == q.tallies[i].dead
              && Reschedule(q, key, job).tallies[i].key == q.tallies[i].key
              && (i != job.id ==> Reschedule(q, key, job).tallies[i] == q.tallies[i])
  {
  }

  lemma SettleLetters(l: Limits, q: Queue, key: string, o: Outcome)
    requires Inv(l, q)
    ensures var dead := Settle(l, q, key, o).everDead;
            if Runs(q, key) && o.Fails? && (o.retryable ==> q.pending.vals[key].attempts == l.maxAttempts)
            then dead == q.everDead + [DeadLetter(key, q.pending.vals[key].attempts,
                                                  if o.retryable then MaxAttempts else Permanent)]
            else dead == q.everDead
  {
    hide LastN, Note, Reschedule;
    if Runs(q, key) {
      JobOf(l, q, key);
      hide Inv;
      RescheduleQuiet(q, key, q.pending.vals[key]);
    }
  }

  lemma SettleEarns(l: Limits, q: Queue, key: string, o: Outcome)
    ensures if Runs(q, key) && o.Fails? && (o.retryable ==> q.pending.vals[key].attempts == l.maxAttempts)
            then var d := DeadLetter(key, q.pending.vals[key].attempts, if o.retryable then MaxAttempts else Permanent);
                 Earns(l, q, DoSettle(key, o), d) && forall e :: Earns(l, q, DoSettle(key, o), e) ==> e == d
            else forall e :: !Earns(l, q, DoSettle(key, o), e)
  {
  }

  /** Every step earns a letter exactly when it is one of those, and no step earns two. */
  lemma LettersExactly(l: Limits, q: Queue, op: Op)
    requires ValidLimits(l) && Inv(l, q)
    ensures forall d :: Earns(l, q, op, d) ==> Apply(l, q, op).everDead == q.everDead + [d]
    ensures (forall d :: !Earns(l, q, op, d)) ==> Apply(l, q, op).everDead == q.everDead
  {
    hide Settle, TimerFires, FlushKeys, LastN, PendingOk, TalliesOk;
    match op
    case DoEnqueue(key) =>
      if !q.disposed {
        ArrivalExactly(l, q, key);
        hide Inv, Enqueue;
        assert Earns(l, q, op, DeadLetter(key, 0, CapacityExceeded)) <==>
               key !in q.pending.vals && |q.pending.keys| == l.maxPending;
      } else {
        hide Inv;
      }
    case DoTimer(key) =>
      TimerStarts(l, q, key);
      hide Inv;
    case DoSettle(key, outcome) =>
      SettleLetters(l, q, key, outcome);
      SettleEarns(l, q, key, outcome);
      hide Inv, Earns;
    case DoFlush =>
      FlushStarts(l, q, q.pending.keys);
      hide Inv, FlushKeys;
    case DoDispose =>
    case DoQuarantine(key) =>
      hide Inv, LastN;
      assert Earns(l, q, op, DeadLetter(key, 0, Quarantined)) <==> !q.disposed;
  }

  /** Every dead letter of a run was earned by one of its steps. */
  lemma {:induction false} LetterEarned(l: Limits, ops: seq<Op>, j: nat) returns (n: nat)
    requires ValidLimits(l) && j < |Run(l, ops).everDead|
    ensures n < |ops| && Earns(l, Run(l, ops[..n]), ops[n], Run(l, ops).everDead[j])
  {
    hide Inv, Apply, Run, Earns, ValidLimits;
    if ops == [] {
      RunNone(l);
    }
    var before, last := ops[..|ops| - 1], ops[|ops| - 1];
    RunInv(l, before);
    LettersExactly(l, Run(l, before), last);
    assert ops == before + [last];
    RunPush(l, before, last);
    if j < |Run(l, before).everDead| {
      n := LetterEarned(l, before, j);
      assert before[..n] == ops[..n] && before[n] == ops[n];
      SameLetter(l, Run(l, before), last, j);
    } else {
      n := |ops| - 1;
      var d :| Earns(l, Run(l, before), last, d);
    }
  }

  lemma SameLetter(l: Limits, q: Queue, op: Op, j: nat)
    requires ValidLimits(l) && Inv(l, q) && j < |q.everDead|
    ensures j < |Apply(l, q, op).everDead| && Apply(l, q, op).everDead[j] == q.everDead[j]
  {
    LettersExactly(l, q, op);
    hide Inv, Apply, Earns;
    if d :| Earns(l, q, op, d) {
    }
  }

  /** Of all dead letters the list keeps the newest, as many as it may. */
  lemma NewestKept(l: Limits, ops: seq<Op>)
    requires ValidLimits(l)
    ensures var q := Run(l, ops);
            && |q.deadLetters| == (if |q.everDead| < l.maxDeadLetters then |q.everDead| else l.maxDeadLetters)
            && q.deadLetters == q.everDead[|q.everDead| - |q.deadLetters|..]
  {
    RunInv(l, ops);
    hide Run, PendingOk, TalliesOk, ValidMap;
  }

  // ----- How a job dies -----

  /** The only step that makes a job dead: its attempt fails for good, or for the last time. */
  lemma DeadBy(l: Limits, q: Queue, op: Op, i: nat)
    requires ValidLimits(l) && Inv(l, q) && i < |q.tallies|
    ensures |Apply(l, q, op).tallies| >= |q.tallies| && Apply(l, q, op).tallies[i].key == q.tallies[i].key
    ensures q.tallies[i].dead == 1 ==> Apply(l, q, op).tallies[i] == q.tallies[i]
    ensures q.tallies[i].dead != 1 && Apply(l, q, op).tallies[i].dead == 1 ==>
              var key := q.tallies[i].key;
              && Runs(q, key) && q.pending.vals[key].id == i && op.DoSettle? && op.key == key && op.outcome.Fails?
              && (op.outcome.retryable ==> q.pending.vals[key].attempts == l.maxAttempts)
              && Apply(l, q, op).tallies[i].started == q.pending.vals[key].attempts
  {
    match op
    case DoEnqueue(key) =>
      if !q.disposed {
        ArrivalExactly(l, q, key);
        hide Inv, Enqueue, LastN;
        if key !in q.pending.vals && |q.pending.keys| != l.maxPending {
          assert Apply(l, q, op).tallies[i] == q.tallies[i];
        } else if key !in q.pending.vals {
          assert Apply(l, q, op).tallies == q.tallies;
        }
      }
    case DoTimer(key) =>
      TimerStarts(l, q, key);
      hide Inv, TimerFires;
    case DoSettle(key, outcome) => SettleDead(l, q, key, outcome, i);
    case DoFlush =>
      FlushStarts(l, q, q.pending.keys);
      hide Inv, FlushKeys;
    case DoDispose =>
      var t := q.tallies[i];
      assert IsPending(q.pending.vals, t, i) || Resolved(l, t, q.disposed);
      if IsPending(q.pending.vals, t, i) {
        JobOf(l, q, t.key);
      }
      hide Inv;
    case DoQuarantine(key) =>
      hide Inv, LastN;
  }

  lemma SettleDead(l: Limits, q: Queue, key: string, o: Outcome, i: nat)
    requires Inv(l, q) && i < |q.tallies|
    ensures var q', k := Settle(l, q, key, o), q.tallies[i].key;
            && |q'.tallies| == |q.tallies| && q'.tallies[i].key == q.tallies[i].key
            && (q.tallies[i].dead == 1 ==> q'.tallies[i] == q.tallies[i])
            && (q.tallies[i].dead != 1 && q'.tallies[i].dead == 1 ==>
                  && Runs(q, key) && key == k && q.pending.vals[key].id == i && o.Fails?
                  && (o.retryable ==> q.pending.vals[key].attempts == l.maxAttempts)
                  && q'.tallies[i].started == q.pending.vals[key].attempts)
  {
    if Runs(q, key) {
      JobOf(l, q, key);
      hide Inv, LastN, Reschedule;
      RescheduleQuiet(q, key, q.pending.vals[key]);
    }
  }

  /**
   * A job that ended dead had all its runs, or its last run failed for good: there is the step at which it was still
   * running and failed, and that was not a retryable failure unless it was the last of `maxAttempts` runs.
   */
  lemma {:induction false} DeadOnlyWhen(l: Limits, ops: seq<Op>, i: nat) returns (n: nat)
    requires ValidLimits(l) && i < |Run(l, ops).tallies| && Run(l, ops).tallies[i].dead == 1
    ensures n < |ops| && ops[n].DoSettle? && ops[n].key == Run(l, ops).tallies[i].key && ops[n].outcome.Fails?
    ensures Runs(Run(l, ops[..n]), ops[n].key) && Run(l, ops[..n]).pending.vals[ops[n].key].id == i
    ensures Run(l, ops).tallies[i].started == Run(l, ops[..n]).pending.vals[ops[n].key].attempts
    ensures Run(l, ops).tallies[i].started == l.maxAttempts || ops[n].outcome == Fails(false)
  {
    hide Inv, Apply, Run, ValidLimits;
    if ops == [] {
      RunNone(l);
    }
    var before, last := ops[..|ops| - 1], ops[|ops| - 1];
    RunInv(l, before);
    var q := Run(l, before);
    assert ops == before + [last];
    RunPush(l, before, last);
    if i < |q.tallies| {
      DeadBy(l, q, last, i);
      if q.tallies[i].dead == 1 {
        n := DeadOnlyWhen(l, before, i);
        assert before[..n] == ops[..n] && before[n] == ops[n];
      } else {
        n := |ops| - 1;
      }
    } else {
      NewJobAlive(l, q, last, i);
      assert false;
    }
  }

  lemma NewJobAlive(l: Limits, q: Queue, op: Op, i: nat)
    requires ValidLimits(l) && Inv(l, q) && |q.tallies| <= i < |Apply(l, q, op).tallies|
    ensures Apply(l, q, op).tallies[i].dead == 0
  {
    match op
    case DoEnqueue(key) =>
      if !q.disposed {
        ArrivalExactly(l, q, key);
        hide Inv, Enqueue, LastN;
      }
    case DoTimer(key) =>
      TimerStarts(l, q, key);
      hide Inv, TimerFires;
    case DoSettle(key, outcome) =>
      if q.tallies != [] {
        SettleDead(l, q, key, outcome, 0);
      } else if Runs(q, key) {
        JobOf(l, q, key);
      }
      hide Inv;
    case DoFlush =>
      FlushStarts(l, q, q.pending.keys);
      hide Inv, FlushKeys;
    case DoDispose =>
      hide Inv;
    case DoQuarantine(key) =>
      hide Inv, LastN;
  }

  lemma SettleLeaves(l: Limits, q: Queue, k: string, o: Outcome, key: string)
    requires Inv(l, q) && key in q.pending.vals
    ensures key !in Settle(l, q, k, o).pending.vals <==> EndsJob(l, q, DoSettle(k, o), key)
    ensures key in Settle(l, q, k, o).pending.vals ==>
              Settle(l, q, k, o).pending.vals[key].id == q.pending.vals[key].id
  {
    hide LastN, Note, Reschedule;
    if Runs(q, k) {
      JobOf(l, q, k);
      hide Inv;
      RescheduleEffect(q, k);
    }
  }

  /** A pending job stays pending, with its number, except at the steps that end it. */
  lemma LeavesExactly(l: Limits, q: Queue, op: Op, key: string)
    requires ValidLimits(l) && Inv(l, q) && key in q.pending.vals
    ensures key !in Apply(l, q, op).pending.vals <==> EndsJob(l, q, op, key)
    ensures key in Apply(l, q, op).pending.vals ==> Apply(l, q, op).pending.vals[key].id == q.pending.vals[key].id
  {
    hide Enqueue, TimerFires, FlushKeys, LastN, JobOk, PendingOk, TalliesOk;
    JobOf(l, q, key);
    match op
    case DoEnqueue(k) =>
      ArrivalExactly(l, q, k);
      hide Inv;
    case DoTimer(k) =>
      TimerStarts(l, q, k);
      hide Inv;
    case DoSettle(k, outcome) =>
      SettleLeaves(l, q, k, outcome, key);
      hide Inv, Settle;
    case DoFlush =>
      FlushStarts(l, q, q.pending.keys);
      hide Inv, FlushKeys;
    case DoDispose =>
      hide Inv;
    case DoQuarantine(_) =>
      hide Inv, LastN;
  }
}
