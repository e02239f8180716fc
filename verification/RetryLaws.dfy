/** Runs of the in-memory retry queue. */
module RetryLaws {
  // What every run of the in-memory retry queue keeps, and how each accepted job ends.

  import opened JsMap
  import opened RetrySpec

  // ----- One key at a time -----

  lemma PutKeepsPending(l: Limits, pending: map<string, Job>, tallies: seq<Tally>, key: string, job: Job, t: Tally)
    requires PendingOk(l, pending, tallies) && key in pending && job.id == pending[key].id && JobOk(l, job, t, key)
    ensures PendingOk(l, pending[key := job], Note(tallies, job.id, t))
  {
  }

  lemma PutKeepsTallies(l: Limits, pending: map<string, Job>, tallies: seq<Tally>, disposed: bool,
                        key: string, job: Job, t: Tally)
    requires TalliesOk(l, pending, tallies, disposed) && PendingOk(l, pending, tallies)
    requires key in pending && job.id == pending[key].id && JobOk(l, job, t, key)
    ensures TalliesOk(l, pending[key := job], Note(tallies, job.id, t), disposed)
  {
    var tallies' := Note(tallies, job.id, t);
    assert JobOk(l, pending[key], tallies[job.id], key);
    forall i | 0 <= i < |tallies'|
      ensures IsPending(pending[key := job], tallies'[i], i) || Resolved(l, tallies'[i], disposed)
    {
      hide Resolved;
      assert IsPending(pending, tallies[i], i) || Resolved(l, tallies[i], disposed);
    }
  }

  lemma PutKeeps(l: Limits, q: Queue, key: string, job: Job, t: Tally)
    requires Inv(l, q) && key in q.pending.vals && job.id == q.pending.vals[key].id && JobOk(l, job, t, key)
    ensures Inv(l, Put(q, key, job, t))
  {
    PutKeepsPending(l, q.pending.vals, q.tallies, key, job, t);
    PutKeepsTallies(l, q.pending.vals, q.tallies, q.disposed, key, job, t);
    SetValid(q.pending, key, job);
    hide PendingOk, TalliesOk, JobOk, Note, ValidMap, LastN;
    InMapInKeys(q.pending, key);
  }

  lemma InMapInKeys(m: JsMap<string, Job>, key: string)
    requires ValidMap(m)
    ensures key in m.vals <==> key in m.keys
  {
  }

  lemma TakeKeepsPending(l: Limits, pending: map<string, Job>, tallies: seq<Tally>, key: string, t: Tally)
    requires PendingOk(l, pending, tallies) && key in pending
    ensures PendingOk(l, pending - {key}, Note(tallies, pending[key].id, t))
  {
    var id := pending[key].id;
    assert JobOk(l, pending[key], tallies[id], key);
    forall k <- pending - {key}
      ensures pending[k].id < |tallies| && JobOk(l, pending[k], Note(tallies, id, t)[pending[k].id], k)
    {
      assert JobOk(l, pending[k], tallies[pending[k].id], k);
    }
  }

  lemma TakeKeepsTallies(l: Limits, pending: map<string, Job>, tallies: seq<Tally>, disposed: bool, key: string, t: Tally)
    requires TalliesOk(l, pending, tallies, disposed) && PendingOk(l, pending, tallies)
    requires key in pending && Resolved(l, t, disposed)
    ensures TalliesOk(l, pending - {key}, Note(tallies, pending[key].id, t), disposed)
  {
    hide Resolved;
    var id := pending[key].id;
    var tallies' := Note(tallies, id, t);
    assert JobOk(l, pending[key], tallies[id], key);
    forall i | 0 <= i < |tallies'|
      ensures IsPending(pending - {key}, tallies'[i], i) || Resolved(l, tallies'[i], disposed)
    {
      assert IsPending(pending, tallies[i], i) || Resolved(l, tallies[i], disposed);
    }
  }

  lemma TakeKeeps(l: Limits, q: Queue, key: string, t: Tally)
    requires Inv(l, q) && key in q.pending.vals && Resolved(l, t, q.disposed)
    ensures Inv(l, Take(q, key, q.pending.vals[key].id, t))
  {
    TakeKeepsPending(l, q.pending.vals, q.tallies, key, t);
    TakeKeepsTallies(l, q.pending.vals, q.tallies, q.disposed, key, t);
    DeleteValid(q.pending, key);
    hide PendingOk, TalliesOk, JobOk, Note, ValidMap, LastN, Resolved;
    InMapInKeys(q.pending, key);
  }

  lemma RecordKeeps(l: Limits, q: Queue, d: DeadLetter)
    requires Inv(l, q)
    ensures Inv(l, RecordDeadLetter(l, q, d))
  {
    hide PendingOk, TalliesOk, ValidMap;
  }

  lemma CountKeeps(l: Limits, q: Queue, c: Counters)
    requires Inv(l, q)
    ensures Inv(l, q.(counters := c))
  {
    hide PendingOk, TalliesOk, ValidMap, LastN;
  }

  /** A job on its own: where it stands, and what its tally says. */
  lemma JobOf(l: Limits, q: Queue, key: string)
    requires Inv(l, q) && key in q.pending.vals
    ensures var job := q.pending.vals[key];
            job.id < |q.tallies| && JobOk(l, job, q.tallies[job.id], key) && TallyOf(q.tallies, job.id) == q.tallies[job.id]
    ensures !q.disposed && key in q.pending.keys
  {
    hide TalliesOk, JobOk, LastN;
  }

  // ----- Each operation -----

  /** A timer cleared and an attempt started comes to one change of the job. */
  lemma ForcedStart(l: Limits, q: Queue, key: string, force: bool)
    requires Inv(l, q) && key in q.pending.vals
    ensures var job := q.pending.vals[key];
            StartAttempt(ClearTimer(q, key), key, force) ==
            if job.running then Put(q, key, job.(force := job.force || force), q.tallies[job.id])
            else Put(q, key, job.(attempts := job.attempts + 1, running := true, timer := false, force := false),
                     q.tallies[job.id].(started := q.tallies[job.id].started + 1))
  {
    JobOf(l, q, key);
    hide Inv, LastN;
    var job := q.pending.vals[key];
    var m, cleared := q.pending.vals, job.(timer := false);
    var kept := job.(timer := false, force := job.force || force);
    var started := job.(attempts := job.attempts + 1, running := true, timer := false, force := false);
    Overwrite(m, key, cleared, kept);
    Overwrite(m, key, cleared, started);
    assert q.tallies[job.id := q.tallies[job.id]] == q.tallies;
  }

  lemma ForcedStartKeeps(l: Limits, q: Queue, key: string, force: bool)
    requires Inv(l, q) && key in q.pending.vals
    ensures Inv(l, StartAttempt(ClearTimer(q, key), key, force))
  {
    ForcedStart(l, q, key, force);
    JobOf(l, q, key);
    hide Inv, Put, StartAttempt, ClearTimer;
    var job := q.pending.vals[key];
    var t := q.tallies[job.id];
    if job.running {
      PutKeeps(l, q, key, job.(force := job.force || force), t);
    } else {
      PutKeeps(l, q, key, job.(attempts := job.attempts + 1, running := true, timer := false, force := false),
               t.(started := t.started + 1));
    }
  }

  /** The producer's replay only brings the attempt forward: it never resets the count of attempts. */
  lemma ReplayIsForced(l: Limits, q: Queue, key: string)
    requires Inv(l, q) && key in q.pending.vals
    ensures Replay(q, key) == StartAttempt(ClearTimer(q, key), key, true)
  {
    JobOf(l, q, key);
    hide Inv, StartAttempt, LastN;
    var job := q.pending.vals[key];
    assert (job.running && !job.timer) == job.running;
  }

  lemma TimerKeeps(l: Limits, q: Queue, key: string)
    requires Inv(l, q)
    ensures Inv(l, TimerFires(q, key))
  {
    hide Inv, StartAttempt, ClearTimer;
    if key in q.pending.vals {
      ForcedStartKeeps(l, q, key, false);
    }
  }

  lemma AddKeepsTallies(l: Limits, pending: map<string, Job>, tallies: seq<Tally>, disposed: bool, key: string, job: Job, t: Tally)
    requires TalliesOk(l, pending, tallies, disposed) && PendingOk(l, pending, tallies)
    requires key !in pending && job.id == |tallies| && JobOk(l, job, t, key)
    ensures TalliesOk(l, pending[key := job], tallies + [t], disposed) && PendingOk(l, pending[key := job], tallies + [t])
  {
    hide Resolved;
    var pending', tallies' := pending[key := job], tallies + [t];
    forall i | 0 <= i < |tallies'| ensures IsPending(pending', tallies'[i], i) || Resolved(l, tallies'[i], disposed) {
      if i < |tallies| {
        assert IsPending(pending, tallies[i], i) || Resolved(l, tallies[i], disposed);
      }
    }
  }

  lemma AddIs(l: Limits, q: Queue, key: string)
    requires Inv(l, q) && key !in q.pending.vals && !q.disposed && |q.pending.keys| < l.maxPending
    ensures Enqueue(l, q, key) == q.(pending := Set(q.pending, key, Job(|q.tallies|, 1, true, false, false)),
                                     tallies := q.tallies + [Tally(key, 1, 0, 0, 0, 0)])
  {
    hide Inv, LastN;
    var t := Tally(key, 0, 0, 0, 0, 0);
    assert (q.tallies + [t])[|q.tallies| := t.(started := 1)] == q.tallies + [t.(started := 1)];
    var a, b := Job(|q.tallies|, 0, false, false, false), Job(|q.tallies|, 1, true, false, false);
    assert q.pending.vals[key := a][key := b] == q.pending.vals[key := b];
  }

  lemma EnqueueKeeps(l: Limits, q: Queue, key: string)
    requires ValidLimits(l) && Inv(l, q)
    ensures Inv(l, Enqueue(l, q, key))
  {
    if q.disposed {
    } else if key in q.pending.vals {
      hide Inv, StartAttempt, ClearTimer, Replay;
      ReplayIsForced(l, q, key);
      ForcedStartKeeps(l, q, key, true);
    } else if |q.pending.keys| >= l.maxPending {
      hide Inv, RecordDeadLetter;
      RecordKeeps(l, q, DeadLetter(key, 0, CapacityExceeded));
    } else {
      hide PendingOk, TalliesOk, ValidMap, LastN, Enqueue;
      AddIs(l, q, key);
      var job, t := Job(|q.tallies|, 1, true, false, false), Tally(key, 1, 0, 0, 0, 0);
      AddKeepsTallies(l, q.pending.vals, q.tallies, q.disposed, key, job, t);
      SetValid(q.pending, key, job);
    }
  }

  lemma EndKeeps(l: Limits, q: Queue, key: string, c: Counters, t: Tally)
    requires Inv(l, q) && key in q.pending.vals && Resolved(l, t, q.disposed)
    ensures Inv(l, Take(q.(counters := c), key, q.pending.vals[key].id, t))
  {
    hide Inv, Take, Resolved;
    CountKeeps(l, q, c);
    TakeKeeps(l, q.(counters := c), key, t);
  }

  lemma SettleKeeps(l: Limits, q: Queue, key: string, o: Outcome)
    requires Inv(l, q)
    ensures Inv(l, Settle(l, q, key, o))
  {
    hide Inv, Take, Put, StartAttempt, ClearTimer, RecordDeadLetter;
    if key in q.pending.vals && q.pending.vals[key].running {
      JobOf(l, q, key);
      var job := q.pending.vals[key];
      var t := q.tallies[job.id];
      if o.Succeeds? {
        TakeKeeps(l, q, key, t.(succeeded := t.succeeded + 1));
      } else if !o.retryable {
        var c := q.counters.(permanent := q.counters.permanent + 1);
        var t' := t.(failed := t.failed + 1, dead := t.dead + 1);
        EndKeeps(l, q, key, c, t');
        RecordKeeps(l, Take(q.(counters := c), key, job.id, t'), DeadLetter(key, job.attempts, Permanent));
      } else {
        RetryableKeeps(l, q, key);
      }
    }
  }

  lemma RetryableKeeps(l: Limits, q: Queue, key: string)
    requires Inv(l, q) && key in q.pending.vals && q.pending.vals[key].running
    ensures Inv(l, Settle(l, q, key, Fails(true)))
  {
    hide Inv, Take, Put, StartAttempt, ClearTimer, RecordDeadLetter;
    JobOf(l, q, key);
    var job := q.pending.vals[key];
    var t := q.tallies[job.id];
    var c := q.counters.(retriable := q.counters.retriable + 1);
    if job.attempts >= l.maxAttempts {
      var t' := t.(failed := t.failed + 1, dead := t.dead + 1);
      EndKeeps(l, q, key, c, t');
      RecordKeeps(l, Take(q.(counters := c), key, job.id, t'), DeadLetter(key, job.attempts, MaxAttempts));
    } else {
      CountKeeps(l, q, c);
      var waiting, t' := job.(running := false, timer := true, force := false), t.(failed := t.failed + 1);
      WaitingKeeps(l, q.(counters := c), key, waiting, t');
      if job.force {
        ReplayedKeeps(l, q.(counters := c), key, waiting.(force := true), waiting, t');
      }
    }
  }

  lemma WaitingKeeps(l: Limits, q: Queue, key: string, waiting: Job, t: Tally)
    requires Inv(l, q) && key in q.pending.vals && q.pending.vals[key].running
    requires q.pending.vals[key].attempts < l.maxAttempts
    requires waiting == q.pending.vals[key].(running := false, timer := true, force := false)
    requires t == TallyOf(q.tallies, waiting.id).(failed := TallyOf(q.tallies, waiting.id).failed + 1)
    ensures Inv(l, Put(q, key, waiting, t)) && key in Put(q, key, waiting, t).pending.vals
  {
    JobOf(l, q, key);
    PutIs(q, key, waiting, t);
    hide Inv, Put, LastN;
    PutKeeps(l, q, key, waiting, t);
  }

  /** The end of a failed attempt may find a replay waiting, and then skips the timer. */
  lemma ReplayedKeeps(l: Limits, q: Queue, key: string, scheduled: Job, waiting: Job, t: Tally)
    requires Inv(l, Put(q, key, waiting, t)) && key in Put(q, key, waiting, t).pending.vals
    requires scheduled == waiting.(force := true) && !waiting.running
    ensures key in Put(q, key, scheduled, t).pending.vals
    ensures Inv(l, StartAttempt(ClearTimer(Put(q, key, scheduled, t), key), key, true))
  {
    PutIs(q, key, scheduled, t);
    assert !q.disposed by { JobOf(l, Put(q, key, waiting, t), key); }
    hide Inv, Put, StartAttempt, ClearTimer;
    ForcedStartKeeps(l, Put(q, key, waiting, t), key, true);
    SameStart(q, key, scheduled, waiting, t);
  }

  lemma PutIs(q: Queue, key: string, job: Job, t: Tally)
    ensures Put(q, key, job, t).pending.vals == q.pending.vals[key := job]
  {
  }

  lemma SameStart(q: Queue, key: string, a: Job, b: Job, t: Tally)
    requires a == b.(force := a.force) && !a.running
    requires !q.disposed && key in Put(q, key, a, t).pending.vals && key in Put(q, key, b, t).pending.vals
    ensures StartAttempt(ClearTimer(Put(q, key, a, t), key), key, true)
         == StartAttempt(ClearTimer(Put(q, key, b, t), key), key, true)
  {
    var m := q.pending.vals;
    var a', b' := a.(timer := false), b.(timer := false);
    var started := a.(attempts := a.attempts + 1, running := true, timer := false, force := false);
    Overwrite(m, key, a, a');
    Overwrite(m, key, b, b');
    Overwrite(m, key, a', started);
    Overwrite(m, key, b', started);
  }

  lemma {:induction false} FlushKeeps(l: Limits, q: Queue, keys: seq<string>)
    requires Inv(l, q)
    ensures Inv(l, FlushKeys(q, keys))
    decreases |keys|
  {
    hide Inv, StartAttempt, ClearTimer;
    if keys != [] {
      if keys[0] in q.pending.vals {
        ForcedStartKeeps(l, q, keys[0], true);
        FlushKeeps(l, StartAttempt(ClearTimer(q, keys[0]), keys[0], true), keys[1..]);
      } else {
        FlushKeeps(l, q, keys[1..]);
      }
    }
  }

  lemma DropResolves(l: Limits, pending: map<string, Job>, tallies: seq<Tally>)
    requires PendingOk(l, pending, tallies) && TalliesOk(l, pending, tallies, false)
    ensures TalliesOk(l, map[], Drop(tallies, pending), true)
  {
    forall i | 0 <= i < |tallies| ensures Resolved(l, Drop(tallies, pending)[i], true) {
      if IsPending(pending, tallies[i], i) {
        assert JobOk(l, pending[tallies[i].key], tallies[i], tallies[i].key);
      } else {
        assert Resolved(l, tallies[i], false);
      }
    }
  }

  lemma DisposeKeeps(l: Limits, q: Queue)
    requires Inv(l, q)
    ensures Inv(l, Dispose(q))
  {
    if !q.disposed {
      DropResolves(l, q.pending.vals, q.tallies);
      hide TalliesOk, Drop, LastN;
    }
  }

  lemma ApplyKeeps(l: Limits, q: Queue, op: Op)
    requires ValidLimits(l) && Inv(l, q)
    ensures Inv(l, Apply(l, q, op))
  {
    hide Inv, Enqueue, TimerFires, Settle, FlushKeys, Dispose;
    match op
    case DoEnqueue(key) => EnqueueKeeps(l, q, key);
    case DoTimer(key) => TimerKeeps(l, q, key);
    case DoSettle(key, outcome) => SettleKeeps(l, q, key, outcome);
    case DoFlush => FlushKeeps(l, q, q.pending.keys);
    case DoDispose => DisposeKeeps(l, q);
    case DoQuarantine(key) =>
      if !q.disposed {
        hide RecordDeadLetter;
        var c := q.counters.(quarantined := q.counters.quarantined + 1);
        CountKeeps(l, q, c);
        RecordKeeps(l, q.(counters := c), DeadLetter(key, 0, Quarantined));
      }
  }

  // ----- Over whole runs -----

  function Run(l: Limits, ops: seq<Op>): Queue {
    if ops == [] then Empty() else Apply(l, Run(l, ops[..|ops| - 1]), ops[|ops| - 1])
  }

  lemma {:induction false} RunInv(l: Limits, ops: seq<Op>)
    requires ValidLimits(l)
    ensures Inv(l, Run(l, ops))
  {
    if ops != [] {
      hide Inv, Apply;
      RunInv(l, ops[..|ops| - 1]);
      ApplyKeeps(l, Run(l, ops[..|ops| - 1]), ops[|ops| - 1]);
    }
  }

  /**
   * Every accepted job is pending, or ended exactly once: in success, in a dead letter after a permanent
   * failure or `maxAttempts` failed runs, or by disposal. It never runs twice at a time, nor more than
   * `maxAttempts` times, however often producers replay it.
   */
  lemma EachJobEndsOnce(l: Limits, ops: seq<Op>, i: nat)
    requires ValidLimits(l) && i < |Run(l, ops).tallies|
    ensures var q := Run(l, ops);
            var t := q.tallies[i];
            && (if IsPending(q.pending.vals, t, i) then 1 else 0) + t.succeeded + t.dead + t.dropped == 1
            && 1 <= t.started <= l.maxAttempts && 0 <= t.started - t.failed - t.succeeded <= 1
            && (t.succeeded == 1 ==> t.failed == t.started - 1) && (t.dead == 1 ==> t.failed == t.started)
            && (t.dropped == 1 ==> q.disposed)
  {
    hide Run, LastN;
    RunInv(l, ops);
    var q := Run(l, ops);
    var t := q.tallies[i];
    assert IsPending(q.pending.vals, t, i) || Resolved(l, t, q.disposed);
    if IsPending(q.pending.vals, t, i) {
      JobOf(l, q, t.key);
    }
  }

  /** No pending job is stuck: each is running or has its timer, never both, and there are at most `maxPending`. */
  lemma PendingMoves(l: Limits, ops: seq<Op>, key: string)
    requires ValidLimits(l) && key in Run(l, ops).pending.vals
    ensures var q := Run(l, ops);
            q.pending.vals[key].running != q.pending.vals[key].timer && 1 <= |q.pending.keys| <= l.maxPending
    ensures |Run(l, ops).deadLetters| <= l.maxDeadLetters
  {
    hide Run;
    RunInv(l, ops);
    JobOf(l, Run(l, ops), key);
  }

  // ----- How long a job can take -----

  /** Twice the runs left, and one more while running; zero once it is gone. */
  function Left(l: Limits, q: Queue, key: string, id: nat): int {
    if key in q.pending.vals && q.pending.vals[key].id == id then
      var job := q.pending.vals[key];
      2 * (l.maxAttempts - job.attempts) + (if job.running then 1 else 0)
    else 0
  }

  /** The step is the timer or the end of an attempt of this very job. */
  predicate OwnStep(q: Queue, key: string, id: nat, op: Op) {
    && key in q.pending.vals && q.pending.vals[key].id == id
    && ((op == DoTimer(key) && q.pending.vals[key].timer)
        || (op.DoSettle? && op.key == key && q.pending.vals[key].running))
  }

  lemma LeftBounds(l: Limits, q: Queue, key: string, id: nat)
    requires ValidLimits(l) && Inv(l, q)
    ensures 0 <= Left(l, q, key, id) < 2 * l.maxAttempts
    ensures key in q.pending.vals && q.pending.vals[key].id == id <==> Left(l, q, key, id) > 0
  {
    if key in q.pending.vals {
      JobOf(l, q, key);
    }
  }

  lemma StartLeft(l: Limits, q: Queue, k: string, force: bool, key: string, id: nat)
    requires Inv(l, q) && k in q.pending.vals
    ensures Left(l, StartAttempt(ClearTimer(q, k), k, force), key, id) <= Left(l, q, key, id)
    ensures OwnStep(q, key, id, DoTimer(k)) && key == k ==>
              Left(l, StartAttempt(ClearTimer(q, k), k, force), key, id) < Left(l, q, key, id)
  {
    ForcedStart(l, q, k, force);
    JobOf(l, q, k);
    var job := q.pending.vals[k];
    PutIs(q, k, job.(force := job.force || force), q.tallies[job.id]);
    PutIs(q, k, job.(attempts := job.attempts + 1, running := true, timer := false, force := false),
          q.tallies[job.id].(started := q.tallies[job.id].started + 1));
    hide Inv, Put, StartAttempt, ClearTimer, LastN;
  }

  lemma SettleLeft(l: Limits, q: Queue, k: string, o: Outcome, key: string, id: nat)
    requires Inv(l, q) && k in q.pending.vals && q.pending.vals[k].running
    ensures Left(l, Settle(l, q, k, o), key, id) <= Left(l, q, key, id)
    ensures k == key && q.pending.vals[k].id == id ==> Left(l, Settle(l, q, k, o), key, id) < Left(l, q, key, id)
  {
    JobOf(l, q, k);
    hide Inv, LastN, Note;
    var job := q.pending.vals[k];
    var scheduled := job.(running := false, timer := true);
    Overwrite(q.pending.vals, k, scheduled, scheduled.(timer := false));
  }

  lemma {:induction false} FlushLeft(l: Limits, q: Queue, keys: seq<string>, key: string, id: nat)
    requires Inv(l, q)
    ensures Left(l, FlushKeys(q, keys), key, id) <= Left(l, q, key, id)
    decreases |keys|
  {
    hide Inv, StartAttempt, ClearTimer, Left;
    if keys != [] {
      if keys[0] in q.pending.vals {
        StartLeft(l, q, keys[0], true, key, id);
        ForcedStartKeeps(l, q, keys[0], true);
        FlushLeft(l, StartAttempt(ClearTimer(q, keys[0]), keys[0], true), keys[1..], key, id);
      } else {
        FlushLeft(l, q, keys[1..], key, id);
      }
    }
  }

  lemma EnqueueLeft(l: Limits, q: Queue, k: string, key: string, id: nat)
    requires Inv(l, q) && id < |q.tallies|
    ensures Left(l, Enqueue(l, q, k), key, id) <= Left(l, q, key, id)
  {
    if !q.disposed && k in q.pending.vals {
      ReplayIsForced(l, q, k);
      StartLeft(l, q, k, true, key, id);
      hide Inv, StartAttempt, ClearTimer, Left, Replay;
    } else if !q.disposed && |q.pending.keys| < l.maxPending {
      AddIs(l, q, k);
      hide Inv, Enqueue, LastN;
    } else {
      hide Inv, LastN;
    }
  }

  /** Nothing adds to the runs a job has left, and each step of its own uses some of them up. */
  lemma Progress(l: Limits, q: Queue, op: Op, key: string, id: nat)
    requires ValidLimits(l) && Inv(l, q) && id < |q.tallies|
    ensures Left(l, Apply(l, q, op), key, id) <= Left(l, q, key, id)
    ensures OwnStep(q, key, id, op) ==> Left(l, Apply(l, q, op), key, id) < Left(l, q, key, id)
    ensures |Apply(l, q, op).tallies| >= |q.tallies|
  {
    hide Inv, StartAttempt, ClearTimer, Enqueue, Settle, FlushKeys;
    TalliesGrow(l, q, op);
    LeftBounds(l, q, key, id);
    match op
    case DoEnqueue(k) => EnqueueLeft(l, q, k, key, id);
    case DoTimer(k) =>
      if k in q.pending.vals {
        StartLeft(l, q, k, false, key, id);
      }
    case DoSettle(k, o) =>
      if k in q.pending.vals && q.pending.vals[k].running {
        SettleLeft(l, q, k, o, key, id);
      } else {
        assert Settle(l, q, k, o) == q by { SettleIdle(l, q, k, o); }
      }
    case DoFlush => FlushLeft(l, q, q.pending.keys, key, id);
    case _ =>
  }

  lemma SettleIdle(l: Limits, q: Queue, k: string, o: Outcome)
    requires k !in q.pending.vals || !q.pending.vals[k].running
    ensures Settle(l, q, k, o) == q
  {
  }

  lemma TalliesGrow(l: Limits, q: Queue, op: Op)
    requires ValidLimits(l) && Inv(l, q)
    ensures |Apply(l, q, op).tallies| >= |q.tallies|
  {
    hide Inv, LastN, FlushKeys;
    if op.DoFlush? {
      FlushTallies(q, q.pending.keys);
    }
  }

  lemma {:induction false} FlushTallies(q: Queue, keys: seq<string>)
    ensures |FlushKeys(q, keys).tallies| == |q.tallies|
    decreases |keys|
  {
    if keys != [] {
      if keys[0] in q.pending.vals {
        FlushTallies(StartAttempt(ClearTimer(q, keys[0]), keys[0], true), keys[1..]);
      } else {
        FlushTallies(q, keys[1..]);
      }
    }
  }

  function After(l: Limits, q: Queue, ops: seq<Op>): Queue
    decreases |ops|
  {
    if ops == [] then q else After(l, Apply(l, q, ops[0]), ops[1..])
  }

  /** How many steps of a schedule are the job's own. */
  function OwnSteps(l: Limits, q: Queue, ops: seq<Op>, key: string, id: nat): nat
    decreases |ops|
  {
    if ops == [] then 0
    else (if OwnStep(q, key, id, ops[0]) then 1 else 0) + OwnSteps(l, Apply(l, q, ops[0]), ops[1..], key, id)
  }

  lemma {:induction false} OwnStepsBounded(l: Limits, q: Queue, ops: seq<Op>, key: string, id: nat)
    requires ValidLimits(l) && Inv(l, q) && id < |q.tallies|
    ensures OwnSteps(l, q, ops, key, id) + Left(l, After(l, q, ops), key, id) <= Left(l, q, key, id)
    decreases |ops|
  {
    hide Inv, Apply, Left, OwnStep;
    if ops != [] {
      Progress(l, q, ops[0], key, id);
      ApplyKeeps(l, q, ops[0]);
      OwnStepsBounded(l, Apply(l, q, ops[0]), ops[1..], key, id);
    }
  }

  /**
   * Whatever else happens, fewer than 2 * maxAttempts timers and attempt ends of its own finish a job. As a
   * pending job always has its timer or a running attempt, it can only wait for those.
   */
  lemma EndsInTime(l: Limits, ops: seq<Op>, more: seq<Op>, key: string, id: nat)
    requires ValidLimits(l) && id < |Run(l, ops).tallies|
    ensures var pending := After(l, Run(l, ops), more).pending.vals;
            OwnSteps(l, Run(l, ops), more, key, id)
              < 2 * l.maxAttempts - if key in pending && pending[key].id == id then 1 else 0
  {
    hide Run, Inv, Left, OwnSteps, After, LastN;
    RunInv(l, ops);
    OwnStepsBounded(l, Run(l, ops), more, key, id);
    LeftBounds(l, Run(l, ops), key, id);
    AfterInv(l, Run(l, ops), more);
    LeftBounds(l, After(l, Run(l, ops), more), key, id);
  }

  lemma {:induction false} AfterInv(l: Limits, q: Queue, ops: seq<Op>)
    requires ValidLimits(l) && Inv(l, q)
    ensures Inv(l, After(l, q, ops))
    decreases |ops|
  {
    hide Inv, Apply;
    if ops != [] {
      ApplyKeeps(l, q, ops[0]);
      AfterInv(l, Apply(l, q, ops[0]), ops[1..]);
    }
  }
}
