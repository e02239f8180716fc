/** The in-memory side of `OutputPersistenceRetryQueue` (`src/core/output-persistence-retry.ts`): a queue
    without a durable store, as a state machine over the steps between awaits. The end of an attempt and
    the bookkeeping of its promise are one step. */
module RetrySpec {
  import opened JsMap

  datatype Limits = Limits(maxPending: nat, maxAttempts: nat, maxDeadLetters: nat)

  /** The constructor replaces anything but a positive integer by a default. */
  predicate ValidLimits(l: Limits) {
    l.maxPending >= 1 && l.maxAttempts >= 1 && l.maxDeadLetters >= 1
  }

  /** `running` is the execution promise, `force` the replay to make when it ends. */
  datatype Job = Job(id: nat, attempts: nat, running: bool, timer: bool, force: bool)

  datatype Reason = CapacityExceeded | Permanent | MaxAttempts | Quarantined

  datatype DeadLetter = DeadLetter(key: string, attempts: nat, reason: Reason)

  datatype Counters = Counters(retriable: nat, permanent: nat, quarantined: nat)

  /** What an observer counts for one accepted job. */
  datatype Tally = Tally(key: string, started: nat, failed: nat, succeeded: nat, dead: nat, dropped: nat)

  /** `everDead` and `tallies` are the observer's: all dead letters, and one tally per accepted job. */
  datatype Queue = Queue(
    pending: JsMap<string, Job>,
    deadLetters: seq<DeadLetter>,
    counters: Counters,
    disposed: bool,
    everDead: seq<DeadLetter>,
    tallies: seq<Tally>)

  datatype Outcome = Succeeds | Fails(retryable: bool)

  function Empty(): Queue {
    Queue(EmptyMap(), [], Counters(0, 0, 0), false, [], [])
  }

  function LastN<T>(s: seq<T>, n: nat): seq<T> {
    if |s| > n then s[|s| - n..] else s
  }

  function RecordDeadLetter(l: Limits, q: Queue, d: DeadLetter): Queue {
    q.(deadLetters := LastN(q.deadLetters + [d], l.maxDeadLetters), everDead := q.everDead + [d])
  }

  function TallyOf(tallies: seq<Tally>, id: nat): Tally {
    if id < |tallies| then tallies[id] else Tally("", 0, 0, 0, 0, 0)
  }

  function Note(tallies: seq<Tally>, id: nat, t: Tally): seq<Tally> {
    if id < |tallies| then tallies[id := t] else tallies
  }

  /** One pending job and its tally replaced. */
  function Put(q: Queue, key: string, job: Job, t: Tally): Queue {
    q.(pending := Set(q.pending, key, job), tallies := Note(q.tallies, job.id, t))
  }

  /** One pending job taken out, with its final tally. */
  function Take(q: Queue, key: string, id: nat, t: Tally): Queue {
    q.(pending := Delete(q.pending, key), tallies := Note(q.tallies, id, t))
  }

  /** `startAttempt` and the part of `attempt` up to the call of `run`. */
  function StartAttempt(q: Queue, key: string, force: bool): Queue {
    if key !in q.pending.vals || q.disposed then q
    else
      var job := q.pending.vals[key];
      var t := TallyOf(q.tallies, job.id);
      if job.running then Put(q, key, if force then job.(force := true) else job, t)
      else Put(q, key, job.(attempts := job.attempts + 1, running := true, force := false), t.(started := t.started + 1))
  }

  function ClearTimer(q: Queue, key: string): Queue
    requires key in q.pending.vals
  {
    q.(pending := Set(q.pending, key, q.pending.vals[key].(timer := false)))
  }

  /** `enqueue` of a key that is pending: a replay at once, ahead of its timer. */
  function Replay(q: Queue, key: string): Queue
    requires key in q.pending.vals
  {
    var job := q.pending.vals[key];
    var cleared := job.(timer := false, running := job.running && !job.timer);
    StartAttempt(q.(pending := Set(q.pending, key, cleared)), key, true)
  }

  function Enqueue(l: Limits, q: Queue, key: string): Queue {
    if q.disposed then q
    else if key in q.pending.vals then Replay(q, key)
    else if |q.pending.keys| >= l.maxPending then RecordDeadLetter(l, q, DeadLetter(key, 0, CapacityExceeded))
    else
      var id := |q.tallies|;
      var added := q.(pending := Set(q.pending, key, Job(id, 0, false, false, false)),
                      tallies := q.tallies + [Tally(key, 0, 0, 0, 0, 0)]);
      StartAttempt(added, key, false)
  }

  function TimerFires(q: Queue, key: string): Queue {
    if key in q.pending.vals && q.pending.vals[key].timer then StartAttempt(ClearTimer(q, key), key, false) else q
  }

  function Succeed(q: Queue, key: string, job: Job): Queue {
    var t := TallyOf(q.tallies, job.id);
    Take(q, key, job.id, t.(succeeded := t.succeeded + 1))
  }

  /** A failure that ends the job: permanent, or the last of its attempts. */
  function GiveUp(l: Limits, q: Queue, key: string, job: Job, retryable: bool): Queue {
    var c, t := q.counters, TallyOf(q.tallies, job.id);
    var counted := if retryable then c.(retriable := c.retriable + 1) else c.(permanent := c.permanent + 1);
    RecordDeadLetter(l, Take(q.(counters := counted), key, job.id, t.(failed := t.failed + 1, dead := t.dead + 1)),
                     DeadLetter(key, job.attempts, if retryable then MaxAttempts else Permanent))
  }

  /** A failure with attempts left: a timer, or at once the replay asked for meanwhile. */
  function Reschedule(q: Queue, key: string, job: Job): Queue {
    var c, t := q.counters, TallyOf(q.tallies, job.id);
    var counted := q.(counters := c.(retriable := c.retriable + 1));
    var scheduled := Put(counted, key, job.(running := false, timer := true), t.(failed := t.failed + 1));
    if job.force then StartAttempt(ClearTimer(scheduled, key), key, true) else scheduled
  }

  /** The attempt of `key` ends, together with the `finally` of its promise. */
  function Settle(l: Limits, q: Queue, key: string, o: Outcome): Queue {
    if key !in q.pending.vals || !q.pending.vals[key].running || q.disposed then q
    else
      var job := q.pending.vals[key];
      if o.Succeeds? then Succeed(q, key, job)
      else if !o.retryable || job.attempts >= l.maxAttempts then GiveUp(l, q, key, job, o.retryable)
      else Reschedule(q, key, job)
  }

  /** `flushNow`: every pending job, in insertion order, is started or marked for a replay. */
  function FlushKeys(q: Queue, keys: seq<string>): Queue
    decreases |keys|
  {
    if keys == [] then q
    else if keys[0] !in q.pending.vals then FlushKeys(q, keys[1..])
    else FlushKeys(StartAttempt(ClearTimer(q, keys[0]), keys[0], true), keys[1..])
  }

  function Drop(tallies: seq<Tally>, pending: map<string, Job>): seq<Tally> {
    seq(|tallies|, i requires 0 <= i < |tallies| =>
      var t := tallies[i];
      if t.key in pending && pending[t.key].id == i then t.(dropped := t.dropped + 1) else t)
  }

  function Dispose(q: Queue): Queue {
    if q.disposed then q
    else q.(disposed := true, pending := EmptyMap(), tallies := Drop(q.tallies, q.pending.vals))
  }

  function Quarantine(l: Limits, q: Queue, key: string): Queue {
    if q.disposed then q
    else
      RecordDeadLetter(l, q.(counters := q.counters.(quarantined := q.counters.quarantined + 1)),
                       DeadLetter(key, 0, Quarantined))
  }

  // ----- The invariant -----

  /** A pending job is either running or waiting for its timer, and its tally says how far it is. */
  predicate JobOk(l: Limits, job: Job, t: Tally, key: string) {
    && 1 <= job.attempts <= l.maxAttempts
    && job.running != job.timer
    && (job.timer ==> job.attempts < l.maxAttempts && !job.force)
    && t == Tally(key, job.attempts, if job.running then job.attempts - 1 else job.attempts, 0, 0, 0)
  }

  /** A job that is no longer pending met exactly one end. */
  predicate Resolved(l: Limits, t: Tally, disposed: bool) {
    && 1 <= t.started <= l.maxAttempts
    && t.succeeded + t.dead + t.dropped == 1
    && (t.succeeded == 1 ==> t.failed == t.started - 1)
    && (t.dead == 1 ==> t.failed == t.started)
    && (t.dropped == 1 ==> disposed && t.failed <= t.started <= t.failed + 1)
  }

  predicate IsPending(pending: map<string, Job>, t: Tally, id: nat) {
    t.key in pending && pending[t.key].id == id
  }

  ghost predicate PendingOk(l: Limits, pending: map<string, Job>, tallies: seq<Tally>) {
    forall k <- pending :: pending[k].id < |tallies| && JobOk(l, pending[k], tallies[pending[k].id], k)
  }

  ghost predicate TalliesOk(l: Limits, pending: map<string, Job>, tallies: seq<Tally>, disposed: bool) {
    forall i :: 0 <= i < |tallies| ==> IsPending(pending, tallies[i], i) || Resolved(l, tallies[i], disposed)
  }

  ghost predicate Inv(l: Limits, q: Queue) {
    && ValidMap(q.pending) && |q.pending.keys| <= l.maxPending
    && (q.disposed ==> q.pending.keys == [])
    && PendingOk(l, q.pending.vals, q.tallies) && TalliesOk(l, q.pending.vals, q.tallies, q.disposed)
    && q.deadLetters == LastN(q.everDead, l.maxDeadLetters)
  }

  // ----- Runs -----

  datatype Op =
    | DoEnqueue(key: string)
    | DoTimer(key: string)
    | DoSettle(key: string, outcome: Outcome)
    | DoFlush
    | DoDispose
    | DoQuarantine(key: string)

  function Apply(l: Limits, q: Queue, op: Op): Queue {
    match op
    case DoEnqueue(key) => Enqueue(l, q, key)
    case DoTimer(key) => TimerFires(q, key)
    case DoSettle(key, outcome) => Settle(l, q, key, outcome)
    case DoFlush => FlushKeys(q, q.pending.keys)
    case DoDispose => Dispose(q)
    case DoQuarantine(key) => Quarantine(l, q, key)
  }
}
