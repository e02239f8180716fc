/** What a claim is good for. */
module DurableClaims {
  // How long a claim keeps a job from others, and what a lost one comes to.

  import opened JobStoreSpec
  import opened DurableRetrySpec
  import opened DurableRetryLaws
  import opened DurableRetry

  /** The row is under the claim of this attempt, which has not ended, until at least a time. */
  ghost predicate Protected(y: System, i: nat, until: int) {
    && i < |y.attempts| && !y.attempts[i].ended
    && (var a := y.attempts[i];
        && a.job in y.store.rows && y.store.rows[a.job].running && y.store.rows[a.job].worker == a.worker
        && y.store.rows[a.job].token == a.token && y.store.rows[a.job].expires >= until)
  }

  /** A step of others, or at a time before the claim runs out: not the attempt's own heartbeat or end. */
  predicate Elsewhere(y: System, i: nat, op: Op, until: int)
    requires i < |y.attempts|
  {
    match op
    case DoEnqueue(_, _, _, _) => true
    case DoUpdate(_, _, _) => true
    case DoClaim(id, _, now, _, _) => id == y.attempts[i].job ==> now < until
    case DoExhaust(id, now) => id == y.attempts[i].job ==> now < until
    case DoQuarantine(id) => id != y.attempts[i].job
    case DoHeartbeat(j, _, _) => j != i
    case DoEnd(j, _, _) => j != i
    case DoDispose(j, _) => j != i
  }

  lemma HeartbeatProtects(y: System, i: nat, extend: nat, now: int)
    requires i < |y.attempts| && !y.attempts[i].ended && Current(y, i, now)
    ensures Protected(Apply(y, DoHeartbeat(i, extend, now)), i, now + if extend == 0 then 1 else extend)
    ensures Apply(y, DoHeartbeat(i, extend, now)).attempts == y.attempts
  {
  }

  lemma ClaimProtects(y: System, id: nat, worker: string, now: int, visibility: nat, force: bool)
    requires Apply(y, DoClaim(id, worker, now, visibility, force)).attempts != y.attempts
    ensures Protected(Apply(y, DoClaim(id, worker, now, visibility, force)), |y.attempts|, now + visibility)
  {
    hide Exhaust;
  }

  lemma ProtectedStays(y: System, op: Op, i: nat, until: int)
    requires Inv(y) && Protected(y, i, until) && Elsewhere(y, i, op, until)
    ensures Protected(Apply(y, op), i, until)
    ensures Apply(y, op).attempts[i].job == y.attempts[i].job
    ensures |y.attempts| <= |Apply(y, op).attempts|
    ensures forall j :: |y.attempts| <= j < |Apply(y, op).attempts| ==> Apply(y, op).attempts[j].job != y.attempts[i].job
  {
    Fenced(y, i);
    hide Inv;
    if OfAttempt(y, op) && op.i != i {
      if y.attempts[op.i].job == y.attempts[i].job {
        OtherToken(y, i, op.i);
      }
      ProtectedFromOther(y, op, i, until);
    } else {
      hide FindKey;
      ProtectedFromStore(y, op, i, until);
    }
  }

  lemma ProtectedFromOther(y: System, op: Op, i: nat, until: int)
    requires Protected(y, i, until) && OfAttempt(y, op) && op.i != i
    requires y.attempts[op.i].job == y.attempts[i].job ==> y.attempts[op.i].token != y.attempts[i].token
    ensures Protected(Apply(y, op), i, until)
    ensures Apply(y, op).attempts[i].job == y.attempts[i].job && |Apply(y, op).attempts| == |y.attempts|
  {
  }

  lemma ProtectedFromStore(y: System, op: Op, i: nat, until: int)
    requires Protected(y, i, until) && Elsewhere(y, i, op, until) && (OfAttempt(y, op) ==> op.i == i)
    requires y.attempts[i].job < |y.store.jobs|
    ensures Protected(Apply(y, op), i, until)
    ensures Apply(y, op).attempts[i].job == y.attempts[i].job
    ensures |y.attempts| <= |Apply(y, op).attempts|
    ensures forall j :: |y.attempts| <= j < |Apply(y, op).attempts| ==> Apply(y, op).attempts[j].job != y.attempts[i].job
  {
    hide FindKey;
  }

  ghost predicate AllElsewhere(y: System, i: nat, ops: seq<Op>, until: int)
    requires i < |y.attempts|
  {
    forall k :: 0 <= k < |ops| ==> Elsewhere(y, i, ops[k], until)
  }

  lemma {:induction false} ProtectedThrough(y: System, ops: seq<Op>, i: nat, until: int)
    requires Inv(y) && Protected(y, i, until) && AllElsewhere(y, i, ops, until)
    ensures Protected(After(y, ops), i, until) && |y.attempts| <= |After(y, ops).attempts|
    ensures After(y, ops).attempts[i].job == y.attempts[i].job
    ensures forall j :: |y.attempts| <= j < |After(y, ops).attempts| ==> After(y, ops).attempts[j].job != y.attempts[i].job
    decreases |ops|
  {
    hide Inv, Apply;
    if ops != [] {
      assert Elsewhere(y, i, ops[0], until);
      ApplyKeeps(y, ops[0]);
      ProtectedStays(y, ops[0], i, until);
      ProtectedThrough(Apply(y, ops[0]), ops[1..], i, until);
      JobsStay(Apply(y, ops[0]), ops[1..]);
    }
  }

  lemma {:induction false} JobsStay(y: System, ops: seq<Op>)
    ensures |y.attempts| <= |After(y, ops).attempts|
    ensures forall j :: 0 <= j < |y.attempts| ==> After(y, ops).attempts[j].job == y.attempts[j].job
    decreases |ops|
  {
    hide Apply;
    if ops != [] {
      JobsKept(y, ops[0]);
      JobsStay(Apply(y, ops[0]), ops[1..]);
    }
  }

  lemma JobsKept(y: System, op: Op)
    ensures |y.attempts| <= |Apply(y, op).attempts|
    ensures forall j :: 0 <= j < |y.attempts| ==> Apply(y, op).attempts[j].job == y.attempts[j].job
  {
    hide Exhaust;
  }

  /**
   * A heartbeat under the current claim keeps the job: until it runs out again, whatever others do, the claim stays
   * current and nobody else gets one on that job.
   */
  lemma HeartbeatKeepsJob(ops: seq<Op>, i: nat, extend: nat, now: int, more: seq<Op>, later: int)
    requires OfAttempt(Run(ops), DoHeartbeat(i, extend, now)) && Current(Run(ops), i, now)
    requires later < now + (if extend == 0 then 1 else extend)
    requires AllElsewhere(Run(ops), i, more, now + if extend == 0 then 1 else extend)
    ensures var y, y' := Run(ops), After(Apply(Run(ops), DoHeartbeat(i, extend, now)), more);
            && Current(y', i, later) && |y.attempts| <= |y'.attempts|
            && forall j :: |y.attempts| <= j < |y'.attempts| ==> y'.attempts[j].job != y.attempts[i].job
  {
    RunInv(ops);
    hide Run, Inv;
    HeartbeatProtects(Run(ops), i, extend, now);
    ApplyKeeps(Run(ops), DoHeartbeat(i, extend, now));
    hide Apply, After, Elsewhere;
    ProtectedThrough(Apply(Run(ops), DoHeartbeat(i, extend, now)), more, i, now + if extend == 0 then 1 else extend);
  }

  /** And so does a claim that was granted, for its visibility. */
  lemma ClaimKeepsJob(ops: seq<Op>, id: nat, worker: string, now: int, visibility: nat, force: bool, more: seq<Op>,
                      later: int)
    requires |Apply(Run(ops), DoClaim(id, worker, now, visibility, force)).attempts| > |Run(ops).attempts|
    requires later < now + visibility
    requires AllElsewhere(Apply(Run(ops), DoClaim(id, worker, now, visibility, force)), |Run(ops).attempts|, more,
                          now + visibility)
    ensures var y1 := Apply(Run(ops), DoClaim(id, worker, now, visibility, force));
            var y' := After(y1, more);
            && Current(y', |Run(ops).attempts|, later) && |y1.attempts| <= |y'.attempts|
            && forall j :: |y1.attempts| <= j < |y'.attempts| ==> y'.attempts[j].job != y1.attempts[|Run(ops).attempts|].job
  {
    RunInv(ops);
    hide Run, Inv;
    ClaimProtects(Run(ops), id, worker, now, visibility, force);
    ApplyKeeps(Run(ops), DoClaim(id, worker, now, visibility, force));
    hide Apply, After, Elsewhere;
    ProtectedThrough(Apply(Run(ops), DoClaim(id, worker, now, visibility, force)), more, |Run(ops).attempts|, now + visibility);
  }

  /** A run whose heartbeat was refused ends silently: it acknowledges nothing and calls back nothing. */
  lemma LostHeartbeatSilences(y: System, i: nat, extend: nat, now: int, later: int)
    requires i < |y.attempts| && !y.attempts[i].ended && !Current(y, i, now)
    ensures var y' := Apply(Apply(y, DoHeartbeat(i, extend, now)), DoEnd(i, Resolved, later));
            y'.store == y.store && y'.acks == y.acks && y'.successes == y.successes
  {
  }

  /** An update under the current claim writes the payload, and nothing else. */
  lemma UpdateWrites(y: System, i: nat, payload: string, now: int)
    requires OfAttempt(y, DoUpdate(i, payload, now)) && Current(y, i, now)
    ensures var id := y.attempts[i].job;
            Apply(y, DoUpdate(i, payload, now))
            == y.(store := y.store.(rows := y.store.rows[id := y.store.rows[id].(payload := payload)]))
  {
  }

  /** A retried job is pending for everyone, but for an unforced claim only from its delay on. */
  lemma RetryWaits(ops: seq<Op>, i: nat, delay: nat, now: int, worker: string, later: int, visibility: nat, force: bool)
    requires OfAttempt(Run(ops), DoEnd(i, Failed(true, delay), now)) && Current(Run(ops), i, now)
    requires Run(ops).attempts[i].token < Run(ops).store.rows[Run(ops).attempts[i].job].maxAttempts
    ensures var y1 := Apply(Run(ops), DoEnd(i, Failed(true, delay), now));
            var id := Run(ops).attempts[i].job;
            && id in y1.store.rows && !y1.store.rows[id].running && y1.store.rows[id].runAt == now + delay
            && (|Apply(y1, DoClaim(id, worker, later, visibility, force)).attempts| == |y1.attempts| + 1
                <==> force || now + delay <= later)
  {
    ClaimCountsAttempts(ops, i, now);
    RunInv(ops);
    hide Run, Inv;
  }

  /** A stored job has at least one attempt and is due at once; a live job with the same key is kept instead. */
  lemma EnqueuedExactly(ops: seq<Op>, key: string, payload: string, now: int, maxAttempts: nat)
    ensures var s, s' := Run(ops).store, Apply(Run(ops), DoEnqueue(key, payload, now, maxAttempts)).store;
            if exists id <- s.rows :: s.rows[id].key == key then s' == s
            else
              && |s'.jobs| == |s.jobs| + 1 && |s.jobs| !in s.rows
              && s'.rows == s.rows[|s.jobs| := Row(key, payload, false, "", 0, 0, now, 0,
                                                   if maxAttempts == 0 then 1 else maxAttempts)]
  {
    RunInv(ops);
    InvParts(Run(ops));
    hide Run, Inv, TokensOk, CountsOk, AcksOk, SuccessesOk;
    var s := Run(ops).store;
    if id :| id in s.rows && s.rows[id].key == key {
      assert id < |s.jobs|;
    }
  }
}
