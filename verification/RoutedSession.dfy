/** The routed session as an object. */
module RoutedSession {
  // `RuntimeRoutedSession` of `src/agent-runtime/routed-session.ts`: the fields its queue, drain loop and identity
  // lock use, updated in place between awaits.

  import opened SessionQueueSpec
  import opened SessionQueueLaws

  class RuntimeRoutedSession {
    var queue: seq<Item>
    var processing: bool
    var disposed: bool
    var drain: Drain
    var identityOperation: bool
    var forkRequest: ForkRequest
    var nextOrder: nat
    var taken: seq<Item>

    function View(): Session
      reads this
    {
      Session(queue, processing, disposed, drain, identityOperation, forkRequest, nextOrder, taken)
    }

    ghost predicate Valid()
      reads this
    {
      Inv(View())
    }

    constructor ()
      ensures Valid() && View() == Initial()
    {
      queue, processing, disposed, drain := [], false, false, NoDrain;
      identityOperation, forkRequest, nextOrder, taken := false, NoRequest, 0, [];
      new;
      RunInv([]);
    }

    /** The loop head of `drain`; the loop then awaits the item it has shifted. */
    method Advance()
      modifies this
      ensures View() == LoopHead(old(View()))
    {
      if |queue| > 0 && !disposed {
        var item := queue[0];
        queue := queue[1..];
        drain := Awaiting(item);
        taken := taken + [item];
      } else {
        processing := false;
        drain := Settled;
      }
    }

    method Start()
      modifies this
      ensures View() == StartDrain(old(View()))
    {
      if drain != NoDrain || identityOperation {
        return;
      }
      if processing || disposed {
        drain := Settled;
        return;
      }
      processing := true;
      Advance();
    }

    /** The item being awaited has settled. */
    method ItemSettled()
      requires Valid()
      modifies this
      ensures Valid() && View() == ItemDone(old(View()))
    {
      ItemDoneKeeps(View());
      hide Inv, LoopHead;
      if drain.Awaiting? {
        Advance();
      }
    }

    method DrainSettled()
      requires Valid()
      modifies this
      ensures Valid() && View() == DrainFinally(old(View()))
    {
      DrainFinallyKeeps(View());
      hide Inv, StartDrain;
      if drain == Settled {
        drain := NoDrain;
        if |queue| > 0 && !disposed {
          Start();
        }
      }
    }

    method EnqueueMessage(event: Event, now: int) returns (verdict: Verdict)
      requires Valid()
      modifies this
      ensures Valid() && (View(), verdict) == Enqueue(old(View()), event, now)
    {
      EnqueueKeeps(View(), event, now);
      hide StartDrain, Inv, Capacity, Keep;
      if disposed {
        return Refused(Disposed);
      }
      if identityOperation && forkRequest == NoRequest {
        return Refused(IdentityBusy);
      }
      if event.reminder {
        queue := DropWhere(queue, IsReminder);
      }
      verdict := Capacity(queue, event, now);
      if verdict != Accepted {
        return;
      }
      queue := queue + [Message(event, now, nextOrder)];
      nextOrder := nextOrder + 1;
      Start();
    }

    method EnqueueCompactAction(id: string)
      requires Valid()
      modifies this
      ensures Valid() && View() == EnqueueCompact(old(View()), id)
    {
      CompactKeeps(View(), id);
      hide Inv, StartDrain;
      if disposed {
        return;
      }
      queue := queue + [Compact(id, nextOrder)];
      nextOrder := nextOrder + 1;
      Start();
    }

    /** `removeQueuedMessages`: splices from the back, so earlier positions stay put. */
    method RemoveQueuedMessages(unwanted: Event -> bool) returns (removed: int)
      requires Valid()
      modifies this`queue
      ensures Valid() && View() == RemoveQueued(old(View()), unwanted)
      ensures removed == |old(queue)| - |queue|
    {
      RemoveKeeps(View(), unwanted);
      hide Inv, StartDrain;
      if disposed {
        return 0;
      }
      var before := |queue|;
      queue := DropWhere(queue, DropMessages(unwanted));
      removed := before - |queue|;
    }

    /** The queued branch of `cancelMessage`. */
    method CancelQueuedItem(id: string) returns (found: bool)
      requires Valid()
      modifies this`queue
      ensures Valid() && View() == CancelQueued(old(View()), id)
      ensures found <==> !disposed && exists i :: i in old(queue) && i.Id() == id
    {
      CancelKeeps(View(), id);
      hide Inv, StartDrain;
      FoundIffPresent(queue, id);
      var index := IndexOfId(queue, id);
      if disposed || index < 0 {
        return false;
      }
      queue := queue[..index] + queue[index + 1..];
      found := true;
    }

    /** `kill` and `clearQueue`. */
    method ClearQueue() returns (cleared: nat)
      requires Valid()
      modifies this`queue
      ensures Valid() && View() == Clear(old(View())) && cleared == |old(queue)|
    {
      ClearKeeps(View());
      hide Inv, StartDrain;
      cleared := |queue|;
      queue := [];
    }

    method BeginIdentityOperation(streaming: bool) returns (begun: bool)
      requires Valid()
      modifies this`identityOperation
      ensures Valid() && View() == BeginIdentity(old(View()), streaming)
      ensures begun <==> CanBeginIdentity(old(View()), streaming)
      ensures begun ==> !processing && queue == []
    {
      LocksKeep(View(), streaming, false);
      hide Inv, StartDrain;
      begun := CanBeginIdentity(View(), streaming);
      if begun {
        identityOperation := true;
      }
    }

    method EndIdentityOperation()
      requires Valid()
      modifies this
      ensures Valid() && View() == EndIdentity(old(View()))
    {
      EndIdentityKeeps(View());
      hide Inv, StartDrain;
      if identityOperation && forkRequest != RequestWhileIdle {
        identityOperation := false;
        Start();
      }
    }

    method BeginForkCandidates(streaming: bool, whileRunning: bool)
      requires Valid()
      modifies this`identityOperation, this`forkRequest
      ensures Valid() && View() == BeginForkScan(old(View()), streaming, whileRunning)
    {
      LocksKeep(View(), streaming, whileRunning);
      hide Inv, StartDrain;
      if forkRequest != NoRequest || identityOperation {
        return;
      }
      if HasWork(View(), streaming) {
        if whileRunning {
          forkRequest := RequestWhileRunning;
        }
        return;
      }
      identityOperation := true;
      forkRequest := RequestWhileIdle;
    }

    method EndForkCandidates()
      requires Valid()
      modifies this
      ensures Valid() && View() == EndForkScan(old(View()))
    {
      EndForkScanKeeps(View());
      hide Inv, StartDrain;
      var idle := forkRequest == RequestWhileIdle;
      forkRequest := NoRequest;
      if idle {
        identityOperation := false;
        Start();
      }
    }

    method TransitionToDisposed()
      requires Valid()
      modifies this
      ensures Valid() && View() == Dispose(old(View()))
    {
      ClearKeeps(View());
      hide Inv, StartDrain;
      if disposed {
        return;
      }
      queue := [];
      disposed := true;
      processing := false;
    }
  }

  /** Splices every match out, walking from the last position to the first. */
  method DropWhere(items: seq<Item>, drop: Item -> bool) returns (rest: seq<Item>)
    ensures rest == Keep(items, drop)
  {
    rest := items;
    var index := |items| - 1;
    while index >= 0
      invariant -1 <= index < |items|
      invariant rest == items[..index + 1] + Keep(items[index + 1..], drop)
    {
      assert items[index..] == [items[index]] + items[index + 1..];
      assert items[..index + 1] == items[..index] + [items[index]];
      if drop(rest[index]) {
        rest := rest[..index] + rest[index + 1..];
      }
      index := index - 1;
    }
  }

  lemma {:induction false} FoundIffPresent(q: seq<Item>, id: string)
    ensures IndexOfId(q, id) >= 0 <==> exists i :: i in q && i.Id() == id
  {
    if q != [] {
      FoundIffPresent(q[1..], id);
      assert q == [q[0]] + q[1..];
    }
  }
}
