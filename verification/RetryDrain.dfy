/** Draining the retry queue. */
module RetryDrain {
  // `drain` of the in-memory retry queue: rounds of flushing and waiting for what then runs.

  import opened JsMap
  import opened RetrySpec
  import opened RetryLaws

  /** What may happen while `drain` waits: attempts settle, timers fire, others flush or quarantine. */
  predicate WhileWaiting(op: Op) {
    op.DoSettle? || op.DoTimer? || op.DoFlush? || op.DoQuarantine?
  }

  predicate SettlesIn(ops: seq<Op>, key: string) {
    exists i :: 0 <= i < |ops| && ops[i].DoSettle? && ops[i].key == key
  }

  /** `ops` is a wait for all that is in flight: in any order, every key settles at least once. */
  ghost predicate AllSettle(q: Queue, ops: seq<Op>) {
    && (forall i :: 0 <= i < |ops| ==> WhileWaiting(ops[i]))
    && (forall k <- q.pending.vals :: SettlesIn(ops, k))
  }

  /** Running, and due another run after this one, or past its n-th run already. */
  predicate Ready(job: Job, n: nat) {
    job.running && job.attempts >= n && (job.force || job.attempts > n)
  }

  ghost predicate AtLeast(pending: map<string, Job>, n: nat) {
    forall k <- pending :: pending[k].attempts >= n
  }

  ghost predicate ReadyBut(pending: map<string, Job>, keys: seq<string>, n: nat) {
    forall k <- pending :: k in keys || Ready(pending[k], n)
  }

  /** The jobs waited for are ready, and all others have had more than `n` runs. */
  ghost predicate RaisedBut(pending: map<string, Job>, waiting: set<string>, n: nat) {
    forall k <- pending :: (k in waiting && Ready(pending[k], n)) || pending[k].attempts > n
  }

  lemma StartEffect(l: Limits, q: Queue, key: string)
    requires Inv(l, q) && key in q.pending.vals
    ensures var job := q.pending.vals[key];
            StartAttempt(ClearTimer(q, key), key, true).pending.vals == q.pending.vals[key :=
              if job.running then job.(force := true)
              else job.(attempts := job.attempts + 1, running := true, timer := false, force := false)]
  {
    ForcedStart(l, q, key, true);
    JobOf(l, q, key);
    var job := q.pending.vals[key];
    PutIs(q, key, job.(force := job.force || true), q.tallies[job.id]);
    PutIs(q, key, job.(attempts := job.attempts + 1, running := true, timer := false, force := false),
          q.tallies[job.id].(started := q.tallies[job.id].started + 1));
    hide Inv, Put, StartAttempt, ClearTimer, LastN;
  }

  lemma {:induction false} FlushReadies(l: Limits, q: Queue, keys: seq<string>, n: nat)
    requires Inv(l, q) && AtLeast(q.pending.vals, n) && ReadyBut(q.pending.vals, keys, n)
    ensures ReadyBut(FlushKeys(q, keys).pending.vals, [], n)
    decreases |keys|
  {
    hide Inv, StartAttempt, ClearTimer;
    if keys != [] {
      if keys[0] in q.pending.vals {
        StartEffect(l, q, keys[0]);
        ForcedStartKeeps(l, q, keys[0], true);
        var next := StartAttempt(ClearTimer(q, keys[0]), keys[0], true);
        forall k <- next.pending.vals ensures k in keys[1..] || Ready(next.pending.vals[k], n) {
          assert k in keys ==> k == keys[0] || k in keys[1..];
        }
        FlushReadies(l, next, keys[1..], n);
      } else {
        forall k <- q.pending.vals ensures k in keys[1..] || Ready(q.pending.vals[k], n) {
          assert k in keys ==> k == keys[0] || k in keys[1..];
        }
        FlushReadies(l, q, keys[1..], n);
      }
    }
  }

  lemma SettleEffect(l: Limits, q: Queue, key: string, o: Outcome)
    requires Inv(l, q) && key in q.pending.vals && q.pending.vals[key].running
    ensures var job, after := q.pending.vals[key], Settle(l, q, key, o).pending.vals;
            || after == q.pending.vals - {key}
            || (!job.force && after == q.pending.vals[key := job.(running := false, timer := true)])
            || (job.force && after == q.pending.vals[key := job.(attempts := job.attempts + 1, force := false)])
  {
    JobOf(l, q, key);
    RescheduleEffect(q, key);
    hide Inv, LastN, Note, Reschedule;
  }

  lemma RescheduleEffect(q: Queue, key: string)
    requires key in q.pending.vals && !q.disposed && q.pending.vals[key].running && !q.pending.vals[key].timer
    ensures var job := q.pending.vals[key];
            Reschedule(q, key, job).pending.vals == q.pending.vals[key :=
              if job.force then job.(attempts := job.attempts + 1, force := false)
              else job.(running := false, timer := true)]
  {
    hide Note;
    var job := q.pending.vals[key];
    var scheduled := job.(running := false, timer := true);
    Overwrite(q.pending.vals, key, scheduled, scheduled.(timer := false));
    Overwrite(q.pending.vals, key, scheduled.(timer := false), job.(attempts := job.attempts + 1, force := false));
  }

  lemma {:induction false} FlushStaysRaised(l: Limits, q: Queue, keys: seq<string>, waiting: set<string>, n: nat)
    requires Inv(l, q) && RaisedBut(q.pending.vals, waiting, n)
    ensures RaisedBut(FlushKeys(q, keys).pending.vals, waiting, n)
    decreases |keys|
  {
    hide Inv, StartAttempt, ClearTimer;
    if keys != [] {
      if keys[0] in q.pending.vals {
        StartEffect(l, q, keys[0]);
        ForcedStartKeeps(l, q, keys[0], true);
        FlushStaysRaised(l, StartAttempt(ClearTimer(q, keys[0]), keys[0], true), keys[1..], waiting, n);
      } else {
        FlushStaysRaised(l, q, keys[1..], waiting, n);
      }
    }
  }

  lemma TimerEffect(l: Limits, q: Queue, key: string)
    requires Inv(l, q)
    ensures var after := TimerFires(q, key).pending.vals;
            || after == q.pending.vals
            || (key in q.pending.vals && q.pending.vals[key].timer && !q.pending.vals[key].running
                && after == q.pending.vals[key := q.pending.vals[key].(attempts := q.pending.vals[key].attempts + 1,
                                                                       running := true, timer := false, force := false)])
  {
    if key in q.pending.vals && q.pending.vals[key].timer {
      JobOf(l, q, key);
      ForcedStart(l, q, key, false);
      var job := q.pending.vals[key];
      PutIs(q, key, job.(attempts := job.attempts + 1, running := true, timer := false, force := false),
            q.tallies[job.id].(started := q.tallies[job.id].started + 1));
      hide Inv, Put, StartAttempt, ClearTimer, LastN;
    }
  }

  lemma SettleStaysRaised(l: Limits, q: Queue, key: string, o: Outcome, waiting: set<string>, n: nat)
    requires Inv(l, q) && RaisedBut(q.pending.vals, waiting, n)
    ensures RaisedBut(Settle(l, q, key, o).pending.vals, waiting - {key}, n)
  {
    hide Inv, Settle;
    if key in q.pending.vals && q.pending.vals[key].running {
      SettleEffect(l, q, key, o);
    } else {
      SettleIdle(l, q, key, o);
    }
  }

  /** A step of the wait; a key that settles need not be waited for any longer. */
  lemma StepStaysRaised(l: Limits, q: Queue, op: Op, waiting: set<string>, n: nat)
    requires Inv(l, q) && RaisedBut(q.pending.vals, waiting, n) && WhileWaiting(op)
    ensures RaisedBut(Apply(l, q, op).pending.vals, if op.DoSettle? then waiting - {op.key} else waiting, n)
  {
    hide Inv, Settle, TimerFires, FlushKeys, RaisedBut, LastN;
    match op
    case DoSettle(key, outcome) => SettleStaysRaised(l, q, key, outcome, waiting, n);
    case DoTimer(key) =>
      TimerEffect(l, q, key);
      StartStaysRaised(q.pending.vals, TimerFires(q, key).pending.vals, key, waiting, n);
    case DoFlush => FlushStaysRaised(l, q, q.pending.keys, waiting, n);
    case DoQuarantine(_) =>
  }

  lemma StartStaysRaised(pending: map<string, Job>, after: map<string, Job>, key: string, waiting: set<string>, n: nat)
    requires RaisedBut(pending, waiting, n)
    requires after == pending || (key in pending && !pending[key].running && key in after
                                  && after[key].attempts > pending[key].attempts && after == pending[key := after[key]])
    ensures RaisedBut(after, waiting, n)
  {
  }

  lemma StepKeepsOpen(l: Limits, q: Queue, op: Op)
    requires WhileWaiting(op)
    ensures Apply(l, q, op).disposed == q.disposed
  {
    hide LastN, Note, FlushKeys;
    if op.DoFlush? {
      FlushKeepsOpen(q, q.pending.keys);
    }
  }

  lemma {:induction false} WaitRaises(l: Limits, q: Queue, ops: seq<Op>, waiting: set<string>, n: nat)
    requires ValidLimits(l) && Inv(l, q) && RaisedBut(q.pending.vals, waiting, n)
    requires (forall i :: 0 <= i < |ops| ==> WhileWaiting(ops[i])) && (forall k <- waiting :: SettlesIn(ops, k))
    ensures Inv(l, After(l, q, ops)) && AtLeast(After(l, q, ops).pending.vals, n + 1)
    ensures After(l, q, ops).disposed == q.disposed
    decreases |ops|
  {
    hide Inv, Apply, WhileWaiting;
    if ops == [] {
      assert forall k <- waiting :: SettlesIn(ops, k);
    } else {
      var op := ops[0];
      var rest := if op.DoSettle? then waiting - {op.key} else waiting;
      ApplyKeeps(l, q, op);
      StepStaysRaised(l, q, op, waiting, n);
      StepKeepsOpen(l, q, op);
      forall k <- rest ensures SettlesIn(ops[1..], k) {
        assert SettlesIn(ops, k);
        var i :| 0 <= i < |ops| && ops[i].DoSettle? && ops[i].key == k;
        assert ops[1..][i - 1] == ops[i];
      }
      hide RaisedBut, AtLeast, SettlesIn;
      WaitRaises(l, Apply(l, q, op), ops[1..], rest, n);
    }
  }

  /** A flush, and whatever then happens until all that is in flight has settled. */
  function Round(l: Limits, q: Queue, wait: Queue -> seq<Op>): Queue {
    var flushed := FlushKeys(q, q.pending.keys);
    After(l, flushed, wait(flushed))
  }

  /** After each round every job still pending has had one more run. */
  lemma RoundRaises(l: Limits, q: Queue, wait: Queue -> seq<Op>, n: nat)
    requires ValidLimits(l) && Inv(l, q) && AtLeast(q.pending.vals, n)
    requires var flushed := FlushKeys(q, q.pending.keys); AllSettle(flushed, wait(flushed))
    ensures Inv(l, Round(l, q, wait)) && AtLeast(Round(l, q, wait).pending.vals, n + 1)
    ensures Round(l, q, wait).disposed == q.disposed
  {
    hide FlushKeys, LastN, PendingOk, TalliesOk, After, SettlesIn, WhileWaiting;
    FlushReadies(l, q, q.pending.keys, n);
    FlushKeeps(l, q, q.pending.keys);
    FlushKeepsOpen(q, q.pending.keys);
    var flushed := FlushKeys(q, q.pending.keys);
    WaitRaises(l, flushed, wait(flushed), flushed.pending.vals.Keys, n);
  }

  /** So once every job must have had more than `maxAttempts` runs, none is left. */
  lemma NoneLeft(l: Limits, q: Queue)
    requires Inv(l, q) && AtLeast(q.pending.vals, l.maxAttempts + 1)
    ensures q.pending.keys == []
  {
    if q.pending.keys != [] {
      JobOf(l, q, q.pending.keys[0]);
    }
  }

  lemma AllEnded(l: Limits, q: Queue)
    requires Inv(l, q) && q.pending.keys == [] && !q.disposed
    ensures forall i :: 0 <= i < |q.tallies| ==> q.tallies[i].succeeded + q.tallies[i].dead == 1
  {
    forall i | 0 <= i < |q.tallies| ensures q.tallies[i].succeeded + q.tallies[i].dead == 1 {
      assert IsPending(q.pending.vals, q.tallies[i], i) || Resolved(l, q.tallies[i], q.disposed);
    }
  }

  lemma {:induction false} FlushKeepsOpen(q: Queue, keys: seq<string>)
    ensures FlushKeys(q, keys).disposed == q.disposed
    decreases |keys|
  {
    if keys != [] {
      if keys[0] in q.pending.vals {
        FlushKeepsOpen(StartAttempt(ClearTimer(q, keys[0]), keys[0], true), keys[1..]);
      } else {
        FlushKeepsOpen(q, keys[1..]);
      }
    }
  }
}
