/** Which messages a session accepts. */
module SessionAdmission {
  // Which messages a routed session accepts, told by the ordinary messages in its queue.

  import opened SessionQueueSpec
  import opened SessionQueueLaws

  predicate IsOrdinary(i: Item) {
    i.Message? && !i.event.reminder
  }

  /** The ordinary messages of a queue, oldest first. */
  function Ordinaries(q: seq<Item>): (r: seq<Item>)
    ensures forall i <- r :: i in q && IsOrdinary(i)
    ensures forall i <- q :: IsOrdinary(i) ==> i in r
  {
    if q == [] then []
    else
      assert q == q[..|q| - 1] + [q[|q| - 1]];
      Ordinaries(q[..|q| - 1]) + if IsOrdinary(q[|q| - 1]) then [q[|q| - 1]] else []
  }

  /** The bytes of all their texts. */
  function TextBytes(r: seq<Item>): nat
    requires forall i <- r :: IsOrdinary(i)
  {
    if r == [] then 0
    else
      var last := r[|r| - 1];
      assert last in r && IsOrdinary(last);
      TextBytes(r[..|r| - 1]) + last.event.bytes
  }

  lemma {:induction false} TotalPush(m: Measure, q: seq<Item>, i: Item)
    ensures Total(m, q + [i]) == Total(m, q) + Weigh(m, i)
  {
    if q == [] {
      assert q + [i] == [i];
    } else {
      assert (q + [i])[1..] == q[1..] + [i];
      TotalPush(m, q[1..], i);
    }
  }

  lemma {:induction false} OldestPush(q: seq<Item>, i: Item, now: int)
    ensures OldestWait(q + [i], now) ==
            if IsOrdinary(i) then Max(OldestWait(q, now), now - i.acceptedAt) else OldestWait(q, now)
  {
    if q == [] {
      assert q + [i] == [i];
    } else {
      assert (q + [i])[1..] == q[1..] + [i];
      OldestPush(q[1..], i, now);
    }
  }

  lemma {:induction false} MeasuresAre(q: seq<Item>, now: int)
    ensures var r := Ordinaries(q);
            && Total(Ordinary, q) == |r| && Total(OrdinaryBytes, q) == TextBytes(r)
            && (OldestWait(q, now) >= MAX_WAIT_MS <==> exists i <- r :: now - i.acceptedAt >= 600_000)
    decreases |q|
  {
    if q != [] {
      var last := q[|q| - 1];
      MeasuresAre(q[..|q| - 1], now);
      assert q == q[..|q| - 1] + [last];
      TotalPush(Ordinary, q[..|q| - 1], last);
      TotalPush(OrdinaryBytes, q[..|q| - 1], last);
      OldestPush(q[..|q| - 1], last, now);
      hide Total, OldestWait;
      var before := Ordinaries(q[..|q| - 1]);
      if IsOrdinary(last) {
        assert Ordinaries(q) == before + [last];
        assert (before + [last])[..|before|] == before;
        assert forall i :: i in before + [last] <==> i in before || i == last;
      } else {
        assert Ordinaries(q) == before + [] == before;
      }
    }
  }

  lemma {:induction false} KeptOrdinary(q: seq<Item>, now: int)
    ensures var q' := Keep(q, IsReminder);
            Total(Ordinary, q') == Total(Ordinary, q) && Total(OrdinaryBytes, q') == Total(OrdinaryBytes, q)
            && OldestWait(q', now) == OldestWait(q, now)
  {
    if q != [] {
      KeptOrdinary(q[1..], now);
      var rest := Keep(q[1..], IsReminder);
      assert IsReminder(q[0]) ==> Keep(q, IsReminder) == rest;
      assert !IsReminder(q[0]) ==> Keep(q, IsReminder) == [q[0]] + rest && ([q[0]] + rest)[1..] == rest;
    }
  }

  /**
   * Exactly which messages are accepted, and which refusal the others get, in the order of the checks: a disposed
   * session, an identity operation without a fork-candidate request, a text of more than 1 MiB, 64 ordinary messages
   * waiting, more than 4 MiB of them with this one, or one that has waited for ten minutes. A reminder is checked
   * against the same limits, though it does not count itself.
   */
  lemma VerdictExactly(s: Session, e: Event, now: int)
    ensures var waiting := Ordinaries(s.queue);
            Enqueue(s, e, now).1
            == if s.disposed then Refused(Disposed)
               else if s.identityOperation && s.forkRequest == NoRequest then Refused(IdentityBusy)
               else if e.bytes > 1_048_576 then Refused(MessageBytes)
               else if |waiting| >= 64 then Refused(QueueCount)
               else if TextBytes(waiting) + e.bytes > 4_194_304 then Refused(QueueBytes)
               else if exists i <- waiting :: now - i.acceptedAt >= 600_000 then Refused(OldestWaitAge)
               else Accepted
  {
    MeasuresAre(s.queue, now);
    KeptOrdinary(s.queue, now);
    hide Total, OldestWait, Keep, TextBytes, Ordinaries;
  }
}
