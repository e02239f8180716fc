/** `OutputPersistenceRetryQueue` without a durable store, updated in place. Whether a run succeeds is the
    caller's to say; callbacks do not re-enter. */
module RetryQueue {
  import opened JsMap
  import opened RetrySpec
  import opened RetryLaws
  import opened RetryDrain

  class OutputPersistenceRetryQueue {
    const limits: Limits
    var pending: JsMap<string, Job>
    var deadLetters: seq<DeadLetter>
    var counters: Counters
    var disposed: bool
    // The observer's: every dead letter, and one tally per accepted job.
    var everDead: seq<DeadLetter>
    var tallies: seq<Tally>

    function View(): Queue
      reads this
    {
      Queue(pending, deadLetters, counters, disposed, everDead, tallies)
    }

    ghost predicate Valid()
      reads this
    {
      ValidLimits(limits) && Inv(limits, View())
    }

    constructor (l: Limits)
      requires ValidLimits(l)
      ensures Valid() && limits == l && View() == Empty()
    {
      limits := l;
      pending, deadLetters, counters, disposed := EmptyMap(), [], Counters(0, 0, 0), false;
      everDead, tallies := [], [];
      new;
      RunInv(l, []);
    }

    method RecordDead(d: DeadLetter)
      modifies this
      ensures View() == RecordDeadLetter(limits, old(View()), d)
    {
      everDead := everDead + [d];
      deadLetters := deadLetters + [d];
      if |deadLetters| > limits.maxDeadLetters {
        deadLetters := deadLetters[|deadLetters| - limits.maxDeadLetters..];
      }
    }

    method Start(key: string, forcePending: bool)
      modifies this
      ensures View() == StartAttempt(old(View()), key, forcePending)
    {
      if key !in pending.vals || disposed {
        return;
      }
      var job := pending.vals[key];
      var t := TallyOf(tallies, job.id);
      if job.running {
        if forcePending {
          job := job.(force := true);
        }
      } else {
        job := job.(attempts := job.attempts + 1, running := true, force := false);
        t := t.(started := t.started + 1);
      }
      pending := Set(pending, key, job);
      tallies := Note(tallies, job.id, t);
    }

    method Enqueue(key: string)
      requires Valid()
      modifies this
      ensures Valid() && View() == RetrySpec.Enqueue(limits, old(View()), key)
    {
      EnqueueKeeps(limits, View(), key);
      hide Inv, StartAttempt, RecordDeadLetter;
      if disposed {
        return;
      }
      if key in pending.vals {
        var job := pending.vals[key];
        pending := Set(pending, key, job.(timer := false, running := job.running && !job.timer));
        Start(key, true);
      } else if |pending.keys| >= limits.maxPending {
        RecordDead(DeadLetter(key, 0, CapacityExceeded));
      } else {
        pending := Set(pending, key, Job(|tallies|, 0, false, false, false));
        tallies := tallies + [Tally(key, 0, 0, 0, 0, 0)];
        Start(key, false);
      }
    }

    method TimerFires(key: string)
      requires Valid()
      modifies this
      ensures Valid() && View() == RetrySpec.TimerFires(old(View()), key)
    {
      TimerKeeps(limits, View(), key);
      hide Inv, StartAttempt;
      if key in pending.vals && pending.vals[key].timer {
        pending := Set(pending, key, pending.vals[key].(timer := false));
        Start(key, false);
      }
    }

    /** The attempt of `key` has ended, and the `finally` of its promise has run. */
    method Settled(key: string, o: Outcome)
      requires Valid()
      modifies this
      ensures Valid() && View() == Settle(limits, old(View()), key, o)
    {
      SettleKeeps(limits, View(), key, o);
      hide Inv, RetrySpec.Succeed, RetrySpec.Reschedule, RetrySpec.GiveUp;
      if key !in pending.vals || !pending.vals[key].running || disposed {
        return;
      }
      var job := pending.vals[key];
      if o.Succeeds? {
        Succeed(key, job);
      } else if !o.retryable || job.attempts >= limits.maxAttempts {
        GiveUp(key, job, o.retryable);
      } else {
        Reschedule(key, job);
      }
    }

    method Remove(key: string, id: nat, t: Tally)
      modifies this
      ensures View() == Take(old(View()), key, id, t)
    {
      pending := Delete(pending, key);
      tallies := Note(tallies, id, t);
    }

    method Succeed(key: string, job: Job)
      modifies this
      ensures View() == RetrySpec.Succeed(old(View()), key, job)
    {
      var t := TallyOf(tallies, job.id);
      Remove(key, job.id, t.(succeeded := t.succeeded + 1));
    }

    method GiveUp(key: string, job: Job, retryable: bool)
      modifies this
      ensures View() == RetrySpec.GiveUp(limits, old(View()), key, job, retryable)
    {
      hide RecordDeadLetter;
      if retryable {
        counters := counters.(retriable := counters.retriable + 1);
      } else {
        counters := counters.(permanent := counters.permanent + 1);
      }
      var t := TallyOf(tallies, job.id);
      Remove(key, job.id, t.(failed := t.failed + 1, dead := t.dead + 1));
      RecordDead(DeadLetter(key, job.attempts, if retryable then MaxAttempts else Permanent));
    }

    method Reschedule(key: string, job: Job)
      modifies this
      ensures View() == RetrySpec.Reschedule(old(View()), key, job)
    {
      hide StartAttempt;
      counters := counters.(retriable := counters.retriable + 1);
      var t := TallyOf(tallies, job.id);
      tallies := Note(tallies, job.id, t.(failed := t.failed + 1));
      pending := Set(pending, key, job.(running := false, timer := true));
      if job.force {
        pending := Set(pending, key, pending.vals[key].(timer := false));
        Start(key, true);
      }
    }

    method FlushNow()
      requires Valid()
      modifies this
      ensures Valid() && View() == FlushKeys(old(View()), old(pending.keys))
    {
      FlushKeeps(limits, View(), pending.keys);
      hide Inv, StartAttempt, ClearTimer;
      var keys := pending.keys;
      for i := 0 to |keys|
        invariant FlushKeys(old(View()), keys) == FlushKeys(View(), keys[i..])
      {
        assert keys[i..][0] == keys[i] && keys[i..][1..] == keys[i + 1..];
        if keys[i] in pending.vals {
          ForceStart(keys[i]);
        }
      }
    }

    method ForceStart(key: string)
      requires key in pending.vals
      modifies this
      ensures View() == StartAttempt(ClearTimer(old(View()), key), key, true)
    {
      hide StartAttempt;
      pending := Set(pending, key, pending.vals[key].(timer := false));
      Start(key, true);
    }

    method Dispose()
      requires Valid()
      modifies this
      ensures Valid() && View() == RetrySpec.Dispose(old(View()))
    {
      DisposeKeeps(limits, View());
      hide Inv, Drop;
      if disposed {
        return;
      }
      disposed := true;
      tallies := Drop(tallies, pending.vals);
      pending := EmptyMap();
    }

    method QuarantineKey(key: string)
      requires Valid()
      modifies this
      ensures Valid() && View() == Quarantine(limits, old(View()), key)
    {
      ApplyKeeps(limits, View(), DoQuarantine(key));
      hide Inv, RecordDeadLetter;
      if disposed {
        return;
      }
      counters := counters.(quarantined := counters.quarantined + 1);
      RecordDead(DeadLetter(key, 0, Quarantined));
    }

    /** What happens while `drain` waits, one step after the other. */
    method AwaitExecutions(ops: seq<Op>)
      requires Valid() && forall i :: 0 <= i < |ops| ==> WhileWaiting(ops[i])
      modifies this
      ensures Valid() && View() == After(limits, old(View()), ops)
    {
      hide Inv, Settle, RetrySpec.TimerFires, FlushKeys, Quarantine;
      for i := 0 to |ops|
        invariant Valid()
        invariant After(limits, old(View()), ops) == After(limits, View(), ops[i..])
      {
        assert ops[i..][0] == ops[i] && ops[i..][1..] == ops[i + 1..];
        match ops[i] {
          case DoSettle(key, outcome) => Settled(key, outcome);
          case DoTimer(key) => TimerFires(key);
          case DoFlush => FlushNow();
          case DoQuarantine(key) => QuarantineKey(key);
        }
      }
    }

    /**
     * `drain` with nobody enqueueing: it ends after at most `maxAttempts` + 1 rounds, however the runs end and in
     * whatever order, and by then every job ever accepted has succeeded or is a dead letter. `wait` says what
     * happens in each round from a flushed queue on.
     */
    method Drain(wait: Queue -> seq<Op>) returns (rounds: nat)
      requires Valid() && forall q: Queue :: AllSettle(q, wait(q))
      modifies this
      ensures Valid() && rounds <= limits.maxAttempts + 1 && disposed == old(disposed)
      ensures !disposed ==> pending.keys == []
      ensures !disposed ==> forall i :: 0 <= i < |tallies| ==> tallies[i].succeeded + tallies[i].dead == 1
    {
      rounds := 0;
      if disposed {
        return;
      }
      hide Inv, Round, AllSettle;
      while pending.keys != []
        invariant Valid() && AtLeast(pending.vals, rounds) && rounds <= limits.maxAttempts + 1 && !disposed
        decreases limits.maxAttempts + 1 - rounds
      {
        if rounds == limits.maxAttempts + 1 {
          NoneLeft(limits, View());
          assert false;
        }
        RoundRaises(limits, View(), wait, rounds);
        OneRound(wait);
        rounds := rounds + 1;
      }
      AllEnded(limits, View());
    }

    method OneRound(wait: Queue -> seq<Op>)
      requires Valid() && forall q: Queue :: AllSettle(q, wait(q))
      modifies this
      ensures View() == Round(limits, old(View()), wait)
    {
      hide Inv, FlushKeys, After, SettlesIn;
      FlushNow();
      assert AllSettle(View(), wait(View()));
      AwaitExecutions(wait(View()));
    }
  }
}
