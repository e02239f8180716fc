/** Which tool events make one invocation. */
module ToolInvocations {
  // The events of one tool call of one turn, told by what came before them: where a new invocation begins, and that the
  // invocations are counted.

  import opened JsMap
  import opened JsNumber
  import opened RecentLists
  import opened SequencerSpec
  import opened OutputPartLaws

  predicate Has(events: seq<Event>, k: Kind) {
    exists i :: 0 <= i < |events| && events[i].kind == k
  }

  /** The fingerprint of the latest complete call; calls outside a turn have none. */
  function LatestCall(events: seq<Event>, scoped: bool): Option<string> {
    if events == [] || !scoped then None
    else
      var last := events[|events| - 1];
      if last.kind.ToolCall? && last.callFingerprint.Some? then last.callFingerprint
      else LatestCall(events[..|events| - 1], scoped)
  }

  /**
   * An event begins a new invocation after these of the same one: a call, when there was a call before that has
   * finished, or that was complete and this is not the same; or a start, when there was one that has finished.
   */
  predicate Begins(current: seq<Event>, e: Event, scoped: bool) {
    || current == []
    || (e.kind.ToolCall? && Has(current, ToolCall)
        && (Has(current, ToolFinished)
            || (LatestCall(current, scoped).Some? && LatestCall(current, scoped) != e.callFingerprint)))
    || (e.kind.ToolStarted? && Has(current, ToolStarted) && Has(current, ToolFinished))
  }

  /** The events of the invocation that the last event belongs to. */
  function Current(events: seq<Event>, scoped: bool): seq<Event> {
    if events == [] then []
    else
      var before, last := Current(events[..|events| - 1], scoped), events[|events| - 1];
      if Begins(before, last, scoped) then [last] else before + [last]
  }

  /** How many invocations have begun. */
  function Begun(events: seq<Event>, scoped: bool): nat {
    if events == [] then 0
    else
      Begun(events[..|events| - 1], scoped)
      + if Begins(Current(events[..|events| - 1], scoped), events[|events| - 1], scoped) then 1 else 0
  }

  /** The list after an event, and the ordinal the event gets. */
  function Take(vs: seq<Invocation>, e: Event, scoped: bool): (seq<Invocation>, int) {
    var (vs', i) := AttachInvocation(vs, e, scoped, NO_STORE);
    (vs'[i := MarkInvocation(vs'[i], e, scoped)], vs'[i].ordinal)
  }

  function TakeAll(events: seq<Event>, scoped: bool): seq<Invocation> {
    if events == [] then [] else Take(TakeAll(events[..|events| - 1], scoped), events[|events| - 1], scoped).0
  }

  /** What is on record of the current invocation is what its events were. */
  ghost predicate Recalls(v: Invocation, current: seq<Event>, scoped: bool) {
    && (forall k :: k in v.seen <==> Has(current, k)) && (v.closed <==> Has(current, ToolFinished)) && !v.persisted
    && v.callFingerprint == LatestCall(current, scoped)
  }

  ghost predicate Counted(vs: seq<Invocation>, n: nat) {
    |vs| == n && forall i :: 0 <= i < n ==> vs[i].ordinal == i
  }

  predicate Unnumbered(events: seq<Event>) {
    forall i :: 0 <= i < |events| ==> !Valid(events[i].ordinal)
  }

  lemma HasPush(events: seq<Event>, e: Event, k: Kind)
    ensures Has(events + [e], k) <==> Has(events, k) || e.kind == k
  {
    assert (events + [e])[|events|] == e;
    if Has(events, k) {
      var i :| 0 <= i < |events| && events[i].kind == k;
      assert (events + [e])[i].kind == k;
    }
  }

  lemma LatestPush(events: seq<Event>, e: Event, scoped: bool)
    ensures LatestCall(events + [e], scoped)
         == if scoped && e.kind.ToolCall? && e.callFingerprint.Some? then e.callFingerprint else LatestCall(events, scoped)
  {
    assert (events + [e])[..|events|] == events;
  }

  lemma MarkRecalls(v: Invocation, current: seq<Event>, e: Event, scoped: bool)
    requires Recalls(v, current, scoped)
    ensures Recalls(MarkInvocation(v, e, scoped), current + [e], scoped)
  {
    LatestPush(current, e, scoped);
    forall k ensures k in MarkInvocation(v, e, scoped).seen <==> Has(current + [e], k) {
      HasPush(current, e, k);
    }
    HasPush(current, e, ToolFinished);
    hide Has, LatestCall;
  }

  lemma FreshRecalls(n: int, e: Event, scoped: bool)
    ensures Recalls(MarkInvocation(Invocation(n, {}, false, false, None), e, scoped), [e], scoped)
  {
    MarkRecalls(Invocation(n, {}, false, false, None), [], e, scoped);
    assert [] + [e] == [e];
  }

  /** What the code asks of its record is what the events were. */
  lemma BeginsIs(vs: seq<Invocation>, current: seq<Event>, e: Event, scoped: bool)
    requires vs != [] && current != [] && Recalls(vs[|vs| - 1], current, scoped)
    ensures StartsNew(vs, e, scoped) <==> Begins(current, e, scoped)
  {
    hide Has;
    if !scoped {
      assert LatestCall(current, scoped) == None;
    }
    hide LatestCall;
  }

  lemma CountedHighest(vs: seq<Invocation>, n: nat)
    requires Counted(vs, n) && n < TWO_53
    ensures ToNumber(HighestOrdinal(vs) + 1) == n
  {
    hide ToNumber;
    forall v <- vs ensures v.ordinal <= TWO_53 {
    }
    HighestAtMost(vs);
    if n > 0 {
      assert vs[n - 1] in vs;
      HighestOn(vs);
    } else {
      assert vs == [];
    }
  }

  lemma {:induction false} HighestOn(vs: seq<Invocation>)
    ensures HighestOrdinal(vs) == -1 || exists v <- vs :: v.ordinal == HighestOrdinal(vs)
  {
    if vs != [] {
      HighestOn(vs[1..]);
      assert vs[0] in vs && forall v <- vs[1..] :: v in vs;
    }
  }

  /** One more event: it joins the current invocation, or begins the next, numbered by how many there were. */
  lemma TakeCounts(vs: seq<Invocation>, current: seq<Event>, n: nat, e: Event, scoped: bool)
    requires Counted(vs, n) && n < TWO_53 && !Valid(e.ordinal) && (vs == [] <==> current == [])
    requires vs != [] ==> Recalls(vs[|vs| - 1], current, scoped)
    ensures var (vs', ordinal) := Take(vs, e, scoped);
            var begins := Begins(current, e, scoped);
            && vs' != [] && Counted(vs', if begins then n + 1 else n) && ordinal == |vs'| - 1
            && Recalls(vs'[|vs'| - 1], if begins then [e] else current + [e], scoped)
  {
    hide Recalls, Take, StartsNew;
    if vs != [] {
      BeginsIs(vs, current, e, scoped);
      MarkRecalls(vs[|vs| - 1], current, e, scoped);
    } else {
      NoneBegins(vs, current, e, scoped);
    }
    FreshRecalls(n, e, scoped);
    hide Begins;
    TakeIs(vs, n, e, scoped);
  }

  lemma NoneBegins(vs: seq<Invocation>, current: seq<Event>, e: Event, scoped: bool)
    requires vs == [] && current == []
    ensures StartsNew(vs, e, scoped) && Begins(current, e, scoped)
  {
  }

  lemma TakeIs(vs: seq<Invocation>, n: nat, e: Event, scoped: bool)
    requires Counted(vs, n) && n < TWO_53 && !Valid(e.ordinal) && (vs == [] ==> StartsNew(vs, e, scoped))
    ensures Take(vs, e, scoped)
         == if StartsNew(vs, e, scoped)
            then (vs + [MarkInvocation(Invocation(n, {}, false, false, None), e, scoped)], n)
            else (vs[|vs| - 1 := MarkInvocation(vs[|vs| - 1], e, scoped)], |vs| - 1)
  {
    hide StartsNew, ToNumber, HighestOrdinal;
    CountedHighest(vs, n);
    if StartsNew(vs, e, scoped) {
      var v := Invocation(n, {}, false, false, None);
      assert (vs + [v])[|vs| := MarkInvocation(v, e, scoped)] == vs + [MarkInvocation(v, e, scoped)];
    }
  }

  /**
   * The events of a tool call that carry no numbers, without a durable store: the n-th invocation gets the ordinal
   * n - 1, and every event gets that of the invocation it belongs to.
   */
  lemma {:induction false} InvocationsCounted(events: seq<Event>, scoped: bool)
    requires Unnumbered(events) && |events| <= TWO_53
    ensures Counted(TakeAll(events, scoped), Begun(events, scoped)) && Begun(events, scoped) <= |events|
    ensures events != [] ==>
              && Recalls(TakeAll(events, scoped)[|TakeAll(events, scoped)| - 1], Current(events, scoped), scoped)
              && Current(events, scoped) != [] && Begun(events, scoped) > 0
              && Take(TakeAll(events[..|events| - 1], scoped), events[|events| - 1], scoped).1 == Begun(events, scoped) - 1
  {
    hide Begins, Take, Recalls, Counted;
    if events == [] {
      NoneCounted();
    } else {
      var before, last := events[..|events| - 1], events[|events| - 1];
      InvocationsCounted(before, scoped);
      assert TakeAll(before, scoped) == [] <==> before == [] by { CountedLength(TakeAll(before, scoped), Begun(before, scoped)); }
      TakeCounts(TakeAll(before, scoped), Current(before, scoped), Begun(before, scoped), last, scoped);
      CountedLength(TakeAll(events, scoped), Begun(events, scoped));
    }
  }

  /** Which events belong to a tool call, and what they go out with: an ordinal, and the turn they name or the active one. */
  lemma ToolExactly(s: Session, e: Event, store: Answers)
    requires ValidMap(s.tools)
    ensures var f := PositionTool(s, e, store).1;
            if e.kind in {ToolCall, ToolStarted, ToolUpdated, ToolFinished, SubagentSession} && e.toolCallId.Some?
               && e.toolCallId.value != "" then
              && f == e.(eventId := f.eventId, ordinal := f.ordinal) && f.ordinal.Some?
              && f.eventId == (if e.eventId.Some? then e.eventId else s.activeEventId)
              && (Valid(e.ordinal) ==> f.ordinal == e.ordinal)
            else PositionTool(s, e, store) == (s, e)
  {
    hide Trim, ValidMap, StartsNew, HighestOrdinal, ToNumber, ToolKey, MarkInvocation;
  }

  /**
   * An event that brings a number goes to the invocation with that number, which is on record from then on as one that
   * came with it; a call that follows such an invocation, when that had ended without one, begins the next.
   */
  lemma NumberedExactly(vs: seq<Invocation>, e: Event, scoped: bool, next: Event)
    requires Valid(e.ordinal)
    ensures var (vs', i) := AttachInvocation(vs, e, scoped, NO_STORE);
            && vs'[i].ordinal == e.ordinal.value && vs'[i].persisted
            && (if exists v <- vs :: v.ordinal == e.ordinal.value then
                  i < |vs| && vs' == vs[i := vs[i].(persisted := true)]
                else vs' == vs + [Invocation(e.ordinal.value, {}, false, true, None)])
    ensures vs != [] && vs[|vs| - 1].closed && ToolCall !in vs[|vs| - 1].seen && next.kind == ToolCall && !Valid(next.ordinal) ==>
              (|AttachInvocation(vs, next, scoped, NO_STORE).0| == |vs| + 1 <==> vs[|vs| - 1].persisted)
  {
    FoundOrdinal(vs, e.ordinal.value);
    hide HighestOrdinal, ToNumber;
  }

  lemma {:induction false} FoundOrdinal(vs: seq<Invocation>, n: int)
    ensures FindOrdinal(vs, n) < 0 ==> forall v <- vs :: v.ordinal != n
    ensures FindOrdinal(vs, n) >= 0 ==> vs[FindOrdinal(vs, n)] in vs
  {
    if vs != [] {
      FoundOrdinal(vs[1..], n);
      assert vs == [vs[0]] + vs[1..];
    }
  }

  lemma NoneCounted()
    ensures Counted([], 0)
  {
  }

  lemma CountedLength(vs: seq<Invocation>, n: nat)
    requires Counted(vs, n)
    ensures |vs| == n
  {
  }
}
