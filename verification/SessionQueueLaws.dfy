/** What holds in every reachable state of a routed session. */
module SessionQueueLaws {
  import opened SessionQueueSpec

  // ----- Drain and lock -----

  ghost predicate DrainInv(s: Session) {
    // the loop runs exactly while an item is awaited, unless disposal has cleared the flag
    && (s.processing <==> s.drain.Awaiting? && !s.disposed)
    && (s.disposed ==> s.queue == [])
    && (s.forkRequest == RequestWhileIdle ==> s.identityOperation)
  }

  /** The drain loop and an identity operation never overlap. */
  ghost predicate Exclusive(s: Session) {
    !(s.processing && s.identityOperation)
  }

  /** Whatever waits in the queue has someone who will take it. */
  ghost predicate Scheduled(s: Session) {
    s.queue != [] && !s.disposed && !s.identityOperation ==> s.drain != NoDrain
  }

  // ----- Bounds -----

  ghost predicate Bounded(q: seq<Item>) {
    && Total(Ordinary, q) <= MAX_MESSAGES
    && Total(OrdinaryBytes, q) <= MAX_QUEUE_BYTES
    && Total(Reminders, q) <= 1
    && Total(ReminderBytes, q) <= MAX_MESSAGE_BYTES
  }

  // ----- Order -----

  ghost predicate Ascending(q: seq<Item>) {
    forall i, j :: 0 <= i < j < |q| ==> q[i].order < q[j].order
  }

  ghost predicate OrderInv(s: Session) {
    && Ascending(s.taken) && Ascending(s.queue)
    && (forall t, i :: t in s.taken && i in s.queue ==> t.order < i.order)
    && (forall i :: i in s.taken || i in s.queue ==> i.order < s.nextOrder)
  }

  ghost predicate Inv(s: Session) {
    DrainInv(s) && Exclusive(s) && Scheduled(s) && Bounded(s.queue) && OrderInv(s)
  }

  // ----- Removing from the queue -----

  /** `sub` is `q` with some items taken out. */
  ghost predicate Thinned(sub: seq<Item>, q: seq<Item>) {
    if sub == [] then true
    else q != [] && ((sub[0] == q[0] && Thinned(sub[1..], q[1..])) || Thinned(sub, q[1..]))
  }

  lemma {:induction false} ThinnedRefl(q: seq<Item>)
    ensures Thinned(q, q)
  {
    if q != [] {
      ThinnedRefl(q[1..]);
    }
  }

  lemma {:induction false} KeepThins(q: seq<Item>, drop: Item -> bool)
    ensures Thinned(Keep(q, drop), q)
    ensures forall i :: i in Keep(q, drop) <==> i in q && !drop(i)
  {
    if q != [] {
      KeepThins(q[1..], drop);
      if drop(q[0]) {
        assert Keep(q, drop) == Keep(q[1..], drop);
      } else {
        assert Keep(q, drop)[1..] == Keep(q[1..], drop);
      }
      assert q == [q[0]] + q[1..];
    }
  }

  lemma {:induction false} CutThins(q: seq<Item>, i: nat)
    requires i < |q|
    ensures Thinned(q[..i] + q[i + 1..], q)
  {
    var sub := q[..i] + q[i + 1..];
    if i == 0 {
      assert sub == q[1..];
      ThinnedRefl(q[1..]);
    } else {
      CutThins(q[1..], i - 1);
      assert sub[0] == q[0] && sub[1..] == q[1..][..i - 1] + q[1..][i..];
    }
  }

  /** Taking items out lowers every measure, keeps the rest in order and adds nothing. */
  lemma {:induction false} ThinnedFacts(sub: seq<Item>, q: seq<Item>)
    requires Thinned(sub, q)
    ensures forall m :: Total(m, sub) <= Total(m, q)
    ensures forall i :: i in sub ==> i in q
    ensures Ascending(q) ==> Ascending(sub)
    decreases |q|
  {
    if sub != [] {
      if sub[0] == q[0] && Thinned(sub[1..], q[1..]) {
        ThinnedFacts(sub[1..], q[1..]);
        assert sub == [sub[0]] + sub[1..];
        HeadStaysLeast(sub, q);
      } else {
        ThinnedFacts(sub, q[1..]);
      }
    }
  }

  lemma HeadStaysLeast(sub: seq<Item>, q: seq<Item>)
    requires sub != [] && q != [] && sub[0] == q[0]
    requires forall i :: i in sub[1..] ==> i in q[1..]
    requires Ascending(q[1..]) ==> Ascending(sub[1..])
    ensures Ascending(q) ==> Ascending(sub)
  {
    if Ascending(q) {
      assert Ascending(q[1..]);
      forall j | 0 < j < |sub| ensures sub[0].order < sub[j].order {
        assert sub[j] in sub[1..] && sub[j] in q[1..];
        var k :| 0 <= k < |q[1..]| && q[1..][k] == sub[j];
        assert q[0].order < q[k + 1].order;
      }
      forall i, j | 0 < i < j < |sub| ensures sub[i].order < sub[j].order {
        assert sub[1..][i - 1].order < sub[1..][j - 1].order;
      }
    }
  }

  lemma {:induction false} TotalPush(m: Measure, q: seq<Item>, i: Item)
    ensures Total(m, q + [i]) == Total(m, q) + Weigh(m, i)
  {
    if q == [] {
      assert q + [i] == [i];
    } else {
      assert (q + [i])[1..] == q[1..] + [i];
      TotalPush(m, q[1..], i);
    }
  }

  lemma {:induction false} NoReminderWeighsNothing(q: seq<Item>)
    requires forall i :: i in q ==> !IsReminder(i)
    ensures Total(Reminders, q) == 0 && Total(ReminderBytes, q) == 0
  {
    if q != [] {
      assert q[0] in q;
      NoReminderWeighsNothing(q[1..]);
    }
  }

  // ----- Steps -----

  /** A step that only takes items out of the queue. */
  lemma ThinKeeps(s: Session, q: seq<Item>)
    requires Inv(s) && Thinned(q, s.queue)
    ensures Inv(s.(queue := q))
  {
    ThinnedFacts(q, s.queue);
  }

  lemma LoopHeadKeeps(s: Session)
    requires DrainInv(s.(processing := s.drain.Awaiting? && !s.disposed)) && !s.identityOperation
    requires Bounded(s.queue) && OrderInv(s) && (s.processing || s.disposed)
    ensures Inv(LoopHead(s))
  {
    if s.queue != [] && !s.disposed {
      assert Thinned(s.queue[1..], s.queue) by { ThinnedRefl(s.queue[1..]); }
      ThinnedFacts(s.queue[1..], s.queue);
      hide Thinned, Total;
      assert forall i :: i in s.queue[1..] ==> s.queue[0].order < i.order;
    }
  }

  lemma StartDrainKeeps(s: Session)
    requires DrainInv(s) && Exclusive(s) && Bounded(s.queue) && OrderInv(s)
    ensures Inv(StartDrain(s))
  {
    if s.drain == NoDrain && !s.identityOperation && !s.disposed {
      LoopHeadKeeps(s.(processing := true));
    }
  }

  lemma ItemDoneKeeps(s: Session)
    requires Inv(s)
    ensures Inv(ItemDone(s))
  {
    if s.drain.Awaiting? {
      if s.disposed {
        assert LoopHead(s) == s.(drain := Settled, processing := false);
      } else {
        LoopHeadKeeps(s);
      }
    }
  }

  lemma PushKeeps(s: Session, i: Item)
    requires Inv(s) && !s.disposed && i.order == s.nextOrder && Bounded(s.queue + [i])
    ensures Inv(StartDrain(s.(queue := s.queue + [i], nextOrder := s.nextOrder + 1)))
  {
    var s' := s.(queue := s.queue + [i], nextOrder := s.nextOrder + 1);
    assert forall x :: x in s'.queue <==> x in s.queue || x == i;
    StartDrainKeeps(s');
  }

  lemma CoalescedKeeps(s: Session, e: Event)
    requires Inv(s)
    ensures Inv(Coalesced(s, e))
    ensures e.reminder ==> Total(Reminders, Coalesced(s, e).queue) == 0 && Total(ReminderBytes, Coalesced(s, e).queue) == 0
  {
    if e.reminder {
      KeepThins(s.queue, IsReminder);
      ThinKeeps(s, Keep(s.queue, IsReminder));
      NoReminderWeighsNothing(Keep(s.queue, IsReminder));
    }
  }

  lemma EnqueueKeeps(s: Session, e: Event, now: int)
    requires Inv(s)
    ensures Inv(Enqueue(s, e, now).0)
  {
    hide StartDrain, Keep, OldestWait, OrderInv, Ascending, DrainInv, Exclusive, Scheduled;
    if Enqueue(s, e, now).1 == Accepted {
      var s1, i := Coalesced(s, e), Message(e, now, s.nextOrder);
      CoalescedKeeps(s, e);
      forall m ensures Total(m, s1.queue + [i]) == Total(m, s1.queue) + Weigh(m, i) { TotalPush(m, s1.queue, i); }
      PushKeeps(s1, i);
    } else {
      CoalescedKeeps(s, e);
    }
  }

  lemma CompactKeeps(s: Session, id: string)
    requires Inv(s)
    ensures Inv(EnqueueCompact(s, id))
  {
    if !s.disposed {
      var i := Compact(id, s.nextOrder);
      forall m ensures Total(m, s.queue + [i]) == Total(m, s.queue) { TotalPush(m, s.queue, i); }
      PushKeeps(s, i);
    }
  }

  lemma RemoveKeeps(s: Session, drop: Event -> bool)
    requires Inv(s)
    ensures Inv(RemoveQueued(s, drop))
  {
    KeepThins(s.queue, DropMessages(drop));
    ThinKeeps(s, Keep(s.queue, DropMessages(drop)));
  }

  lemma CancelKeeps(s: Session, id: string)
    requires Inv(s)
    ensures Inv(CancelQueued(s, id))
  {
    var i := IndexOfId(s.queue, id);
    if i >= 0 {
      CutThins(s.queue, i);
      ThinKeeps(s, s.queue[..i] + s.queue[i + 1..]);
    }
  }

  lemma ClearKeeps(s: Session)
    requires Inv(s)
    ensures Inv(Clear(s)) && Inv(Dispose(s))
  {
    ThinKeeps(s, []);
  }

  lemma LocksKeep(s: Session, streaming: bool, whileRunning: bool)
    requires Inv(s)
    ensures Inv(BeginIdentity(s, streaming)) && Inv(BeginForkScan(s, streaming, whileRunning))
  {
  }

  lemma EndIdentityKeeps(s: Session)
    requires Inv(s)
    ensures Inv(EndIdentity(s))
  {
    if s.identityOperation && s.forkRequest != RequestWhileIdle {
      StartDrainKeeps(s.(identityOperation := false));
    }
  }

  lemma EndForkScanKeeps(s: Session)
    requires Inv(s)
    ensures Inv(EndForkScan(s))
  {
    if s.forkRequest == RequestWhileIdle {
      StartDrainKeeps(s.(forkRequest := NoRequest, identityOperation := false));
    }
  }

  lemma DrainFinallyKeeps(s: Session)
    requires Inv(s)
    ensures Inv(DrainFinally(s))
  {
    if s.drain == Settled {
      StartDrainKeeps(s.(drain := NoDrain));
    }
  }

  lemma ApplyKeeps(s: Session, op: Op)
    requires Inv(s)
    ensures Inv(Apply(s, op))
  {
    hide Inv, Enqueue, EnqueueCompact, StartDrain, LoopHead, DrainFinally, ItemDone;
    match op
    case OpEnqueue(e, now) => EnqueueKeeps(s, e, now);
    case OpCompact(id) => CompactKeeps(s, id);
    case OpRemove(drop) => RemoveKeeps(s, drop);
    case OpCancel(id) => CancelKeeps(s, id);
    case OpClear => ClearKeeps(s);
    case OpBeginIdentity(streaming) => LocksKeep(s, streaming, false);
    case OpEndIdentity => EndIdentityKeeps(s);
    case OpBeginForkScan(streaming, whileRunning) => LocksKeep(s, streaming, whileRunning);
    case OpEndForkScan => EndForkScanKeeps(s);
    case OpItemDone => ItemDoneKeeps(s);
    case OpDrainFinally => DrainFinallyKeeps(s);
    case OpDispose => ClearKeeps(s);
  }

  /** Every reachable state: no lost wake-up, drain and identity lock exclusive, queue bounded,
      items taken in the order they were accepted. */
  lemma {:induction false} RunInv(ops: seq<Op>)
    ensures Inv(Run(ops))
  {
    if ops == [] {
    } else {
      RunInv(ops[..|ops| - 1]);
      ApplyKeeps(Run(ops[..|ops| - 1]), ops[|ops| - 1]);
    }
  }

  // ----- What the invariant gives -----

  /** Queued text: at most 64 ordinary messages and 4 MiB, one reminder of at most 1 MiB beside them. */
  lemma QueueBounds(ops: seq<Op>)
    ensures var q := Run(ops).queue;
            && Total(Ordinary, q) <= 64 && Total(OrdinaryBytes, q) <= 4 * 1024 * 1024
            && Total(Ordinary, q) + Total(Reminders, q) <= 65
            && Total(OrdinaryBytes, q) + Total(ReminderBytes, q) <= 5 * 1024 * 1024
  {
    RunInv(ops);
  }

  /** The next turn of whatever is scheduled takes the head of the queue, so no wake-up is lost. */
  lemma HeadGoesNext(ops: seq<Op>)
    ensures var s := Run(ops);
            s.queue != [] && !s.disposed && !s.identityOperation ==>
              (s.drain.Awaiting? && ItemDone(s).drain == Awaiting(s.queue[0]))
              || (s.drain == Settled && DrainFinally(s).drain == Awaiting(s.queue[0]))
  {
    RunInv(ops);
  }

  /** When the lock is released, waiting items are taken at once, or a settled drain takes them next. */
  lemma LockReleaseWakes(ops: seq<Op>)
    ensures var s := Run(ops);
            s.queue != [] && !s.disposed && s.identityOperation && s.forkRequest != RequestWhileIdle ==>
              var s' := EndIdentity(s);
              s'.drain == Awaiting(s.queue[0])
              || (s'.drain == Settled && DrainFinally(s').drain == Awaiting(s.queue[0]))
  {
    RunInv(ops);
  }

  /** Items are taken in the order in which they were accepted, and none after disposal. */
  lemma TakenInOrder(ops: seq<Op>, op: Op)
    ensures Ascending(Run(ops).taken)
    ensures forall t, i :: t in Run(ops).taken && i in Run(ops).queue ==> t.order < i.order
    ensures Run(ops).disposed ==> Apply(Run(ops), op).taken == Run(ops).taken && Apply(Run(ops), op).disposed
  {
    RunInv(ops);
  }

  /** A refused message leaves the queue as it was, except that a refused run reminder has already
      removed the reminder that was waiting: exactly then something is lost. */
  lemma RefusalLosesExactly(s: Session, e: Event, now: int)
    requires Inv(s) && Enqueue(s, e, now).1 != Accepted
    requires !s.disposed && (s.identityOperation ==> s.forkRequest != NoRequest)
    ensures Enqueue(s, e, now).0 == s <==> !(e.reminder && Total(Reminders, s.queue) > 0)
    ensures Total(Reminders, s.queue) == 0 || !e.reminder ==> Enqueue(s, e, now).0.queue == s.queue
    ensures Total(Ordinary, Enqueue(s, e, now).0.queue) == Total(Ordinary, s.queue)
  {
    if e.reminder {
      KeepOrdinary(s.queue);
    }
  }

  lemma {:induction false} KeepOrdinary(q: seq<Item>)
    ensures Total(Ordinary, Keep(q, IsReminder)) == Total(Ordinary, q)
    ensures Keep(q, IsReminder) == q <==> Total(Reminders, q) == 0
    ensures |Keep(q, IsReminder)| <= |q|
  {
    if q != [] {
      KeepOrdinary(q[1..]);
      var rest := Keep(q[1..], IsReminder);
      if IsReminder(q[0]) {
        assert Keep(q, IsReminder) == rest;
      } else {
        assert Keep(q, IsReminder) == [q[0]] + rest;
        assert ([q[0]] + rest)[1..] == rest;
        assert q == [q[0]] + q[1..];
      }
    }
  }

  lemma RunMore(ops: seq<Op>, op: Op)
    ensures Run(ops + [op]) == Apply(Run(ops), op) && Run([]) == Initial()
  {
    assert (ops + [op])[..|ops|] == ops;
  }

  const TURN := Event("turn", 1, false)
  const OLDER := Event("older", 30, true)
  const NEWER := Event("newer", MAX_MESSAGE_BYTES + 1, true)

  /** While a turn runs a reminder is queued. */
  lemma ReminderWaits()
    ensures Run([OpEnqueue(TURN, 0), OpEnqueue(OLDER, 0)]) ==
            Session([Message(OLDER, 0, 1)], true, false, Awaiting(Message(TURN, 0, 0)), false, NoRequest, 2,
                    [Message(TURN, 0, 0)])
  {
    hide Run;
    RunMore([], OpEnqueue(TURN, 0));
    RunMore([OpEnqueue(TURN, 0)], OpEnqueue(OLDER, 0));
    assert [] + [OpEnqueue(TURN, 0)] == [OpEnqueue(TURN, 0)];
    assert [OpEnqueue(TURN, 0)] + [OpEnqueue(OLDER, 0)] == [OpEnqueue(TURN, 0), OpEnqueue(OLDER, 0)];
    var turn := Message(TURN, 0, 0);
    assert [turn][1..] == [];
    assert Apply(Initial(), OpEnqueue(TURN, 0)) == Session([], true, false, Awaiting(turn), false, NoRequest, 1, [turn]);
  }

  /** A run that loses a reminder: a later one, refused for its size, has already taken its place. */
  lemma RefusedReminderDropsTheQueuedOne()
    ensures var s := Run([OpEnqueue(TURN, 0), OpEnqueue(OLDER, 0)]);
            && s.queue == [Message(OLDER, 0, 1)]
            && Enqueue(s, NEWER, 0).1 == Refused(MessageBytes) && Enqueue(s, NEWER, 0).0.queue == []
  {
    ReminderWaits();
    hide Run;
    var waiting := [Message(OLDER, 0, 1)];
    assert waiting[1..] == [] && Keep(waiting, IsReminder) == [];
  }

  // ----- Messages that come during an identity operation -----

  /** A message is taken in exactly when a fork-candidate request is pending and there is room for it; it then goes
      last in the queue, and neither it nor anything before it is taken. */
  lemma GateDuringIdentity(ops: seq<Op>, e: Event, now: int)
    requires Run(ops).identityOperation && !Run(ops).disposed
    ensures var s := Run(ops);
            var (s', v) := Enqueue(s, e, now);
            && (v == Accepted <==> s.forkRequest != NoRequest && Capacity(Coalesced(s, e).queue, e, now) == Accepted)
            && (v == Accepted ==> s'.queue == Coalesced(s, e).queue + [Message(e, now, s.nextOrder)])
            && s'.identityOperation && s'.forkRequest == s.forkRequest && s'.taken == s.taken && s'.drain == s.drain
  {
    hide Run, Capacity, Keep;
  }

  /** Whichever request or operation holds the lock, this is how it gives it back. */
  function Unlock(s: Session): Session {
    if s.forkRequest == RequestWhileIdle then EndForkScan(s) else EndIdentity(s)
  }

  /** Nothing at all is taken while the lock is held, and only its holder can give it back ... */
  lemma NothingTakenUnderLock(ops: seq<Op>, op: Op)
    requires Run(ops).identityOperation
    ensures var s := Run(ops);
            Apply(s, op).identityOperation ==> Apply(s, op).taken == s.taken
    ensures !Apply(Run(ops), op).identityOperation ==> Apply(Run(ops), op) == Unlock(Run(ops))
  {
    RunInv(ops);
    hide Run, Capacity, Keep, IndexOfId;
  }

  /** ... and then the queue moves on from its head, at once or when the settled drain is through. */
  lemma UnlockWakes(ops: seq<Op>)
    requires var s := Run(ops); s.identityOperation && !s.disposed && s.queue != []
    ensures var s, s' := Run(ops), Unlock(Run(ops));
            && !s'.identityOperation
            && (s'.drain == Awaiting(s.queue[0])
                || (s'.drain == Settled && s'.queue == s.queue && DrainFinally(s').drain == Awaiting(s.queue[0])))
  {
    RunInv(ops);
    hide Run;
  }

  /** A run on which a message is accepted under the lock: it waits, and the end of the request takes it. */
  lemma AcceptedUnderLock()
    ensures var s := Run([OpBeginForkScan(false, false)]);
            var (s', v) := Enqueue(s, TURN, 0);
            && s.identityOperation && v == Accepted && s'.queue == [Message(TURN, 0, 0)] && s'.taken == []
            && EndForkScan(s').drain == Awaiting(Message(TURN, 0, 0)) && EndForkScan(s').queue == []
  {
    hide Run;
    RunMore([], OpBeginForkScan(false, false));
    assert [] + [OpBeginForkScan(false, false)] == [OpBeginForkScan(false, false)];
    assert [Message(TURN, 0, 0)][1..] == [];
  }
}
