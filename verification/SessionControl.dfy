/** Taking items back, and the identity lock. */
module SessionControl {
  // Which items leave the queue when they are taken back, and who gets the identity lock and the fork-candidate request.

  import opened SessionQueueSpec
  import opened SessionQueueLaws

  // ----- Taking items back -----

  /** The messages that match go, everything else stays in its order, and nothing but the queue changes. */
  lemma RemovesExactly(s: Session, drop: Event -> bool)
    ensures var s' := RemoveQueued(s, drop);
            && s' == s.(queue := s'.queue) && Thinned(s'.queue, s.queue)
            && (s.disposed ==> s' == s)
            && (!s.disposed ==> forall i :: i in s'.queue <==> i in s.queue && !(i.Message? && drop(i.event)))
            && (!s.disposed ==> |s'.queue| == |s.queue| - Matching(s.queue, drop))
  {
    KeepThins(s.queue, DropMessages(drop));
    ThinnedRefl(s.queue);
    KeptCount(s.queue, drop);
    hide Keep, Thinned;
  }

  /** How many messages match. */
  function Matching(q: seq<Item>, drop: Event -> bool): nat {
    if q == [] then 0
    else
      var last := q[|q| - 1];
      Matching(q[..|q| - 1], drop) + if last.Message? && drop(last.event) then 1 else 0
  }

  lemma {:induction false} KeepPush(q: seq<Item>, i: Item, drop: Item -> bool)
    ensures Keep(q + [i], drop) == Keep(q, drop) + if drop(i) then [] else [i]
  {
    if q == [] {
      assert q + [i] == [i];
    } else {
      assert (q + [i])[1..] == q[1..] + [i];
      KeepPush(q[1..], i, drop);
    }
  }

  lemma {:induction false} KeptCount(q: seq<Item>, drop: Event -> bool)
    ensures |Keep(q, DropMessages(drop))| == |q| - Matching(q, drop)
    decreases |q|
  {
    if q != [] {
      var last := q[|q| - 1];
      assert q == q[..|q| - 1] + [last];
      KeepPush(q[..|q| - 1], last, DropMessages(drop));
      KeptCount(q[..|q| - 1], drop);
    }
  }

  /** The first item with the id goes, if the session is live and has one. */
  lemma CancelsExactly(s: Session, id: string)
    ensures var s' := CancelQueued(s, id);
            if s.disposed || (forall i <- s.queue :: i.Id() != id) then s' == s
            else exists k ::
              && 0 <= k < |s.queue| && s.queue[k].Id() == id && (forall j :: 0 <= j < k ==> s.queue[j].Id() != id)
              && s' == s.(queue := s.queue[..k] + s.queue[k + 1..])
  {
    FirstWithId(s.queue, id);
    if IndexOfId(s.queue, id) >= 0 {
      assert s.queue[IndexOfId(s.queue, id)] in s.queue;
    }
    hide IndexOfId;
  }

  lemma {:induction false} FirstWithId(q: seq<Item>, id: string)
    ensures var k := IndexOfId(q, id);
            && (k >= 0 ==> forall j :: 0 <= j < k ==> q[j].Id() != id)
            && (k < 0 ==> forall i <- q :: i.Id() != id)
  {
    if q != [] {
      FirstWithId(q[1..], id);
      assert q == [q[0]] + q[1..];
    }
  }

  /** All waiting items go at once, whatever they are; the one being processed does not. */
  lemma ClearsExactly(ops: seq<Op>)
    ensures var s, s' := Run(ops), Run(ops + [OpClear]);
            s'.queue == [] && s' == s.(queue := []) && s'.taken == s.taken && s'.drain == s.drain
  {
    RunMore(ops, OpClear);
    hide Run;
  }

  // ----- The identity lock -----

  /** Nothing is going on: no turn, no output streaming, nothing waiting. */
  predicate Quiescent(s: Session, streaming: bool) {
    (s.disposed || (!s.processing && !streaming)) && s.queue == []
  }

  /** An identity operation begins exactly in a live session that is quiescent and has no other under way. */
  lemma IdentityExactly(s: Session, streaming: bool)
    ensures var s' := BeginIdentity(s, streaming);
            if !s.disposed && !s.identityOperation && Quiescent(s, streaming) then s' == s.(identityOperation := true)
            else s' == s
  {
  }

  /**
   * A fork-candidate request is taken only when there is none and no identity operation: with the lock in a quiescent
   * session, and otherwise, if the caller may ask during a run, without it. It ends with the lock given back.
   */
  lemma ForkScanExactly(s: Session, streaming: bool, whileRunning: bool)
    ensures var s' := BeginForkScan(s, streaming, whileRunning);
            if s.forkRequest == NoRequest && !s.identityOperation && Quiescent(s, streaming) then
              s' == s.(identityOperation := true, forkRequest := RequestWhileIdle)
            else if s.forkRequest == NoRequest && !s.identityOperation && whileRunning then
              s' == s.(forkRequest := RequestWhileRunning)
            else s' == s
    ensures EndForkScan(s).forkRequest == NoRequest
    ensures s.forkRequest == RequestWhileRunning ==> EndForkScan(s).identityOperation == s.identityOperation
    ensures s.forkRequest == RequestWhileIdle ==> !EndForkScan(s).identityOperation
  {
  }

  // ----- Taking items in -----

  /**
   * What is accepted goes behind everything that waits, and is taken from there or stays: a compact item always, a
   * message if its verdict says so, and a reminder in place of the one that waits.
   */
  lemma AcceptedJoins(ops: seq<Op>, op: Op)
    requires !Run(ops).disposed && (op.OpCompact? || op.OpEnqueue?)
    ensures var s, s' := Run(ops), Run(ops + [op]);
            && (op.OpCompact? ==> s'.taken + s'.queue == s.taken + s.queue + [Compact(op.id, s.nextOrder)])
            && (op.OpEnqueue? && Enqueue(s, op.event, op.now).1 == Accepted ==>
                  s'.taken + s'.queue
                  == s.taken + Coalesced(s, op.event).queue + [Message(op.event, op.now, s.nextOrder)])
    ensures Run(ops + [op]).taken == Run(ops).taken || (exists i :: Run(ops + [op]).taken == Run(ops).taken + [i])
  {
    RunMore(ops, op);
    hide Run, Capacity, Keep;
    var s := Run(ops);
    if op.OpCompact? {
      StartTakes(s.(queue := s.queue + [Compact(op.id, s.nextOrder)], nextOrder := s.nextOrder + 1));
    } else if Enqueue(s, op.event, op.now).1 == Accepted {
      var s1 := Coalesced(s, op.event);
      StartTakes(s1.(queue := s1.queue + [Message(op.event, op.now, s.nextOrder)], nextOrder := s.nextOrder + 1));
    }
    hide StartDrain, LoopHead;
  }

  /** Starting the drain moves at most the head, from what waits to what is taken. */
  lemma StartTakes(s: Session)
    ensures StartDrain(s).taken + StartDrain(s).queue == s.taken + s.queue
    ensures StartDrain(s).taken == s.taken || (s.queue != [] && StartDrain(s).taken == s.taken + [s.queue[0]])
  {
    if s.queue != [] {
      assert s.taken + [s.queue[0]] + s.queue[1..] == s.taken + s.queue;
    }
  }

  /** Disposal drops what waits and takes nothing. */
  lemma DisposesExactly(ops: seq<Op>)
    ensures var s, s' := Run(ops), Run(ops + [OpDispose]);
            s'.disposed && s'.queue == [] && !s'.processing && s'.taken == s.taken
  {
    RunMore(ops, OpDispose);
    RunInv(ops);
    hide Run;
  }

  /** A disposed session keeps nothing and takes nothing in. */
  lemma DisposedForGood(ops: seq<Op>, op: Op)
    requires Run(ops).disposed
    ensures Run(ops).queue == [] && !Run(ops).processing
    ensures var s, s' := Run(ops), Run(ops + [op]);
            s'.disposed && s'.queue == [] && s'.taken == s.taken && s'.nextOrder == s.nextOrder
  {
    RunMore(ops, op);
    RunInv(ops);
    RunInv(ops + [op]);
    hide Run, Capacity;
  }
}
