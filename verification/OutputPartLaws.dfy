/** Output parts of one session. */
module OutputPartLaws {
  // Output parts of one session, for events that have not been positioned before and without a durable store.

  import opened JsMap
  import opened JsNumber
  import opened RecentLists
  import opened SequencerSpec

  /** At most one part is open, and no two parts have the same index. */
  ghost predicate CounterOk(parts: seq<Part>) {
    && (forall p <- parts :: IsNumber(p.index))
    && (forall i, j :: 0 <= i < j < |parts| ==> parts[i].index != parts[j].index)
    && (forall i, j :: 0 <= i < j < |parts| ==> parts[i].closed || parts[j].closed)
  }

  ghost predicate PartsOk(m: Lists<Part>) {
    ValidMap(m) && forall k <- m.vals :: CounterOk(m.vals[k])
  }

  /** The part an unpositioned event goes to. */
  function Chosen(parts: seq<Part>, e: Event): int {
    if KeepsPartIndex(parts, e) then e.partIndex.value else ChoosePartIndex(parts, e, NO_STORE)
  }

  lemma {:induction false} HighestIsNumber(parts: seq<Part>)
    requires forall p <- parts :: IsNumber(p.index)
    ensures IsNumber(HighestIndex(parts))
  {
    hide IsNumber;
    if parts == [] {
      Exact(-1);
    } else {
      assert parts[0] in parts && forall p <- parts[1..] :: p in parts;
      HighestIsNumber(parts[1..]);
    }
  }

  lemma NextIndex(h: int)
    requires h >= -1 && IsNumber(h)
    ensures ToNumber(h + 1) >= h && ToNumber(h + 1) >= 0
  {
    hide ToNumber, IsNumber;
    if h == -1 {
      Exact(0);
    } else {
      Successor(h);
    }
  }

  /**
   * It is a part on record, or a new one above all of them; and while a part is open, no new one is started. (Where
   * one more than the highest index rounds back to it, that part is taken again.)
   */
  lemma ChosenIs(parts: seq<Part>, e: Event)
    requires !Valid(e.renderSequence) && forall p <- parts :: IsNumber(p.index)
    ensures var index := Chosen(parts, e);
            && IsNumber(index)
            && (FindPart(parts, index) < 0 ==> (forall p <- parts :: p.index < index && p.closed) && index >= 0)
            && (forall p <- parts :: !p.closed ==> FindPart(parts, index) >= 0)
  {
    hide ToNumber, IsNumber, FindPart, LastOpen, HighestIndex;
    HighestIsNumber(parts);
    NextIndex(HighestIndex(parts));
    RoundedIsNumber(HighestIndex(parts) + 1);
    PartNumberIs(e);
    ValidIsNumber(e.partIndex);
    if !KeepsPartIndex(parts, e) {
      var i := LastOpen(parts);
      if i >= 0 {
        assert parts[i] in parts;
      }
    }
    hide PartNumber;
  }

  lemma {:induction false} LastOpenIs(parts: seq<Part>, i: nat)
    requires i < |parts| && !parts[i].closed && forall j :: i < j < |parts| ==> parts[j].closed
    ensures LastOpen(parts) == i
  {
    if i < |parts| - 1 {
      LastOpenIs(parts[..|parts| - 1], i);
    }
  }

  lemma {:induction false} FindPartIs(parts: seq<Part>, i: nat)
    requires i < |parts| && forall j :: 0 <= j < |parts| && parts[j].index == parts[i].index ==> j == i
    ensures FindPart(parts, parts[i].index) == i
  {
    if i > 0 {
      assert parts[0].index != parts[i].index;
      FindPartIs(parts[1..], i - 1);
    }
  }

  lemma {:induction false} HighestOnRecord(parts: seq<Part>)
    ensures HighestIndex(parts) == -1 || exists p <- parts :: p.index == HighestIndex(parts)
  {
    if parts != [] {
      HighestOnRecord(parts[1..]);
      assert parts[0] in parts && forall p <- parts[1..] :: p in parts;
    }
  }

  /** The supplied index names a part that the event may belong to: an open one, or a closed one with its identity. */
  ghost predicate NamesPart(parts: seq<Part>, e: Event) {
    Valid(e.partIndex) && exists p <- parts :: p.index == e.partIndex.value && (!p.closed || p.identity == e.identity)
  }

  /**
   * Exactly which index an event gets: the one it brings, if that names a part it may belong to; else that of the open
   * part; else, with none open, the one it proposes if that is above all on record, and otherwise one more than the
   * highest.
   */
  lemma ChosenExactly(parts: seq<Part>, e: Event)
    requires CounterOk(parts) && !Valid(e.renderSequence)
    ensures NamesPart(parts, e) ==> Chosen(parts, e) == e.partIndex.value
    ensures !NamesPart(parts, e) ==>
              && (forall p <- parts :: !p.closed ==> Chosen(parts, e) == p.index)
              && ((forall p <- parts :: p.closed) ==>
                    if PartNumber(e) >= 0 && forall p <- parts :: p.index < PartNumber(e)
                    then Chosen(parts, e) == PartNumber(e)
                    else if forall p <- parts :: p.index < 0 then Chosen(parts, e) == 0
                    else exists p <- parts ::
                      Chosen(parts, e) == ToNumber(p.index + 1) && forall q <- parts :: q.index <= p.index)
  {
    hide ToNumber, IsNumber, PartNumber;
    KeptIs(parts, e);
    if !NamesPart(parts, e) {
      forall p <- parts | !p.closed ensures Chosen(parts, e) == p.index {
        var i :| 0 <= i < |parts| && parts[i] == p;
        LastOpenIs(parts, i);
      }
      if forall p <- parts :: p.closed {
        HighestOnRecord(parts);
        Exact(0);
        hide CounterOk, HighestIndex, NamesPart;
        assert LastOpen(parts) < 0;
      }
    }
  }

  lemma KeptIs(parts: seq<Part>, e: Event)
    requires CounterOk(parts) && !Valid(e.renderSequence)
    ensures KeepsPartIndex(parts, e) <==> NamesPart(parts, e)
  {
    hide IsNumber;
    if NamesPart(parts, e) {
      var p :| p in parts && p.index == e.partIndex.value && (!p.closed || p.identity == e.identity);
      var i :| 0 <= i < |parts| && parts[i] == p;
      FindPartIs(parts, i);
    }
  }

  lemma PartNumberIs(e: Event)
    ensures IsNumber(PartNumber(e))
  {
    hide ToNumber, IsNumber;
    Exact(0);
    if e.partIndex.Some? {
      RoundedIsNumber(e.partIndex.value);
    }
    if e.contentIndex.Some? {
      RoundedIsNumber(e.contentIndex.value);
    }
  }

  lemma RecordKeeps(parts: seq<Part>, e: Event)
    requires CounterOk(parts) && !Valid(e.renderSequence)
    ensures CounterOk(RecordPart(parts, Chosen(parts, e), PartEnds(e.kind), e.identity))
  {
    hide Chosen, PartEnds, IsNumber;
    ChosenIs(parts, e);
    var index := Chosen(parts, e);
    if FindPart(parts, index) < 0 {
      forall i | 0 <= i < |parts| ensures parts[i].index != index && parts[i].closed {
        assert parts[i] in parts;
      }
    }
  }

  /** The kinds whose event closes its part. */
  const CLOSING: set<Kind> := {AssistantMessage, ThinkingFinished, AssistantUsage, CompactionEnd}

  /**
   * What an event leaves of its counter: the part it goes to, closed for good if it is a closing event, which the part
   * is then known by; a part it begins is known by it; and every other part as it was.
   */
  lemma RecordedExactly(parts: seq<Part>, e: Event)
    requires CounterOk(parts) && !Valid(e.renderSequence)
    requires PartKindOf(e.kind).Some?
    ensures var index := Chosen(parts, e);
            var r := RecordPart(parts, index, PartEnds(e.kind), e.identity);
            && (forall p: Part :: p.index != index ==> (p in r <==> p in parts))
            && (forall p <- parts :: p.index == index ==>
                  Part(index, p.closed || e.kind in CLOSING, if e.kind in CLOSING then e.identity else p.identity) in r)
            && ((forall p <- parts :: p.index != index) ==>
                  r == parts + [Part(index, e.kind in CLOSING, e.identity)])
            && |r| == |parts| + if forall p <- parts :: p.index != index then 1 else 0
  {
    hide Chosen, IsNumber, ToNumber;
    ClosingIs(e.kind);
    hide PartEnds;
    var index := Chosen(parts, e);
    var i := FindPart(parts, index);
    var r := RecordPart(parts, index, PartEnds(e.kind), e.identity);
    if i >= 0 {
      assert parts[i] in parts && r[i] in r;
      forall p | p in parts && p.index != index ensures p in r {
        var j :| 0 <= j < |parts| && parts[j] == p;
        assert r[j] == p;
      }
      forall p | p in parts && p.index == index ensures p == parts[i] {
        var j :| 0 <= j < |parts| && parts[j] == p;
      }
    }
  }

  lemma ClosingIs(k: Kind)
    ensures k in CLOSING <==> PartEnds(k)
  {
  }

  lemma SubKeeps(a: seq<Part>, b: seq<Part>)
    requires CounterOk(b) && Sub(a, b)
    ensures CounterOk(a)
  {
    var f :| Picks(a, b, f);
  }

  lemma TrimKeepsParts(m: Lists<Part>)
    requires PartsOk(m)
    ensures PartsOk(Trim(m, PartClosed, LIMIT))
  {
    var m' := Trim(m, PartClosed, LIMIT);
    TrimKeeps(m, PartClosed, LIMIT);
    forall k <- m'.vals ensures CounterOk(m'.vals[k]) {
      assert ListOf(m', k) == m'.vals[k];
      SubKeeps(m'.vals[k], ListOf(m, k));
    }
  }

  /**
   * Positioning an unpositioned event keeps one open part per turn and kind and all indices apart. Its own counter
   * keeps every open part but the one it closes, and other counters keep all of theirs.
   */
  lemma PartKept(s: Session, e: Event)
    requires PartsOk(s.parts) && !Valid(e.renderSequence)
    ensures PartsOk(PositionPart(s, e, NO_STORE).0.parts)
    ensures PartTurn(s, e).Some? ==>
      var key := PartKey(PartTurn(s, e).value, PartKindOf(e.kind).value);
      var (s', e') := PositionPart(s, e, NO_STORE);
      var parts := ListOf(s.parts, key);
      && e'.partIndex == Some(Chosen(parts, e))
      && (forall k :: k != key ==> Open(ListOf(s'.parts, k), PartClosed) == Open(ListOf(s.parts, k), PartClosed))
      && Open(ListOf(s'.parts, key), PartClosed)
         == Open(RecordPart(parts, Chosen(parts, e), PartEnds(e.kind), e.identity), PartClosed)
  {
    if PartTurn(s, e).Some? {
      var key := PartKey(PartTurn(s, e).value, PartKindOf(e.kind).value);
      var parts := ListOf(s.parts, key);
      var recorded := RecordPart(parts, Chosen(parts, e), PartEnds(e.kind), e.identity);
      RecordKeeps(parts, e);
      SetValid(s.parts, key, recorded);
      var m := Set(s.parts, key, recorded);
      assert PartsOk(m) by { hide CounterOk, RecordPart, ValidMap; }
      hide RecordPart, CounterOk, Trim, Open, PartKey, KeepsPartIndex, ChoosePartIndex, ValidMap;
      TrimKeepsParts(m);
      TrimKeeps(m, PartClosed, LIMIT);
      forall k | k != key ensures ListOf(m, k) == ListOf(s.parts, k) {
      }
    }
  }

  /**
   * Which events belong to an output part, and to which counter: those of these kinds, in the turn they name or else the
   * active one.
   */
  lemma PartExactly(s: Session, e: Event)
    ensures var turn := if e.eventId.Some? then e.eventId else s.activeEventId;
            var kind := if e.kind in {AssistantDelta, AssistantMessage} then Some(AssistantPart)
                        else if e.kind in {ThinkingStarted, ThinkingDelta, ThinkingFinished} then Some(ThinkingPart)
                        else if e.kind == AssistantUsage then Some(UsagePart)
                        else if e.kind in {CompactionStart, CompactionEnd} then Some(CompactionPart)
                        else None;
            && PartKindOf(e.kind) == kind
            && PartTurn(s, e) == if kind.Some? && turn.Some? && turn.value != "" then turn else None
  {
  }

  /** A tool event and a placement leave the parts alone, so this holds for the whole of `position`. */
  lemma PositionKeepsParts(s: Session, e: Event, now: int)
    requires PartsOk(s.parts) && ValidMap(s.tools) && !Valid(e.renderSequence)
    ensures PartsOk(PositionIn(s, e, now, NO_STORE).0.parts)
  {
    var s1 := if e.kind.MessageStarted? && Given(e.eventId) then s.(activeEventId := e.eventId) else s;
    PartKept(s1, e);
    hide PartsOk, PositionPart;
    var (s2, e2) := PositionPart(s1, e, NO_STORE);
    LifecycleParts(s, e, now);
  }

  lemma LifecycleParts(s: Session, e: Event, now: int)
    requires ValidMap(s.parts) && ValidMap(s.tools)
    ensures var s1 := if e.kind.MessageStarted? && Given(e.eventId) then s.(activeEventId := e.eventId) else s;
            var (s2, e2) := PositionPart(s1, e, NO_STORE);
            && PositionIn(s, e, now, NO_STORE).0.parts == s2.parts
            && PositionIn(s, e, now, NO_STORE).0.tools == PositionTool(s2, e2, NO_STORE).0.tools
  {
    hide PositionPart, SegmentKey, ValidMap, NextSequence, Trim, AttachInvocation, MarkInvocation, ToolKey, CompleteAll,
      CompleteSegment;
    var (s3, e3) := Identify(s, e, NO_STORE);
    var key := SegmentKey(e3, s3.activeEventId);
    var (s4, e4) := Place(s3, e3, now, NO_STORE);
    var s5 := if ClearsTurn(s4, e) then s4.(activeEventId := None) else s4;
    LifecycleKeepsParts(s5, e4, key, if Given(e4.eventId) then e4.eventId else s5.activeEventId);
  }

  lemma LifecycleKeepsParts(s: Session, e: Event, key: Option<string>, turn: Option<string>)
    ensures UpdateLifecycle(s, e, key, turn).parts == s.parts && UpdateLifecycle(s, e, key, turn).tools == s.tools
  {
    hide CompleteAll, CompleteSegment;
    var s1 := if key.Some? && key.value !in s.segmentEvents then s.(segmentEvents := s.segmentEvents[key.value := turn]) else s;
    CompleteAllParts(s1, e, s1.positions.keys);
    if key.Some? {
      CompleteParts(s1, key.value);
    }
  }

  lemma {:induction false} CompleteAllParts(s: Session, e: Event, keys: seq<string>)
    ensures CompleteAll(s, e, keys).parts == s.parts && CompleteAll(s, e, keys).tools == s.tools
    decreases |keys|
  {
    hide CompleteSegment, Ends;
    if keys != [] {
      CompleteParts(s, keys[0]);
      CompleteAllParts(if keys[0] in s.positions.vals && Ends(s, e, keys[0]) then CompleteSegment(s, keys[0]) else s,
                       e, keys[1..]);
    }
  }

  lemma CompleteParts(s: Session, key: string)
    ensures CompleteSegment(s, key).parts == s.parts && CompleteSegment(s, key).tools == s.tools
  {
    ForgetParts(s.(active := s.active - {key}, completed := RemoveKey(s.completed, key) + [key]));
  }

  lemma {:induction false} ForgetParts(s: Session)
    ensures ForgetOldest(s).parts == s.parts && ForgetOldest(s).tools == s.tools
    decreases |s.completed|
  {
    if |s.completed| > LIMIT {
      var oldest := s.completed[0];
      var s1 := s.(completed := s.completed[1..]);
      ForgetParts(if oldest in s.active then s1
                  else s1.(positions := Delete(s.positions, oldest), segmentEvents := s.segmentEvents - {oldest}));
    }
  }

  // ----- Tool invocations -----

  /** The invocations of one tool call id, numbered in the order they began, until counting ends at 2^53. */
  ghost predicate InOrder(vs: seq<Invocation>) {
    && (forall v <- vs :: v.ordinal <= TWO_53)
    && (forall i, j :: 0 <= i < j < |vs| ==>
          vs[i].ordinal < vs[j].ordinal || vs[i].ordinal == vs[j].ordinal == TWO_53)
  }

  ghost predicate ToolsOk(m: Lists<Invocation>) {
    ValidMap(m) && forall k <- m.vals :: InOrder(m.vals[k])
  }

  lemma {:induction false} HighestAtMost(vs: seq<Invocation>)
    requires forall v <- vs :: v.ordinal <= TWO_53
    ensures HighestOrdinal(vs) <= TWO_53
    ensures ToNumber(HighestOrdinal(vs) + 1) == if HighestOrdinal(vs) < TWO_53 then HighestOrdinal(vs) + 1 else TWO_53
    ensures HighestOrdinal(vs) < TWO_53 <==> forall v <- vs :: v.ordinal < TWO_53
  {
    if vs != [] {
      HighestAtMost(vs[1..]);
      assert forall v <- vs :: v == vs[0] || v in vs[1..];
    }
    hide ToNumber, IsNumber;
    Exact(TWO_53);
    Successor(TWO_53);
    if HighestOrdinal(vs) < TWO_53 {
      Exact(HighestOrdinal(vs) + 1);
    }
  }

  /**
   * An event without a number of its own goes to the latest invocation, or starts one numbered above all on record,
   * as long as none of them has reached 2^53; whichever it is stays the last in its list.
   */
  lemma AttachesToLatest(vs: seq<Invocation>, e: Event, scoped: bool)
    requires InOrder(vs) && !Valid(e.ordinal)
    ensures var (vs', i) := AttachInvocation(vs, e, scoped, NO_STORE);
            && InOrder(vs') && i == |vs'| - 1 && vs <= vs'
            && (vs' == vs <==> !StartsNew(vs, e, scoped))
            && (StartsNew(vs, e, scoped) ==> |vs'| == |vs| + 1)
            && (StartsNew(vs, e, scoped) ==>
                  ((forall v <- vs :: v.ordinal < vs'[i].ordinal) <==> forall v <- vs :: v.ordinal < TWO_53))
  {
    hide ToNumber, HighestOrdinal;
    HighestAtMost(vs);
    hide StartsNew;
  }

  lemma MarkKeepsOrder(vs: seq<Invocation>, i: nat, e: Event, scoped: bool)
    requires InOrder(vs) && i < |vs|
    ensures InOrder(vs[i := MarkInvocation(vs[i], e, scoped)])
  {
  }

  lemma SubInOrder(a: seq<Invocation>, b: seq<Invocation>)
    requires InOrder(b) && Sub(a, b)
    ensures InOrder(a)
  {
    var f :| Picks(a, b, f);
  }

  lemma TrimKeepsTools(m: Lists<Invocation>)
    requires ToolsOk(m)
    ensures ToolsOk(Trim(m, InvocationClosed, LIMIT))
  {
    var m' := Trim(m, InvocationClosed, LIMIT);
    TrimKeeps(m, InvocationClosed, LIMIT);
    hide InOrder, Sub, Open, Trim;
    forall k <- m'.vals ensures InOrder(m'.vals[k]) {
      assert ListOf(m', k) == m'.vals[k];
      NoneInOrder();
      SubInOrder(m'.vals[k], ListOf(m, k));
    }
  }

  lemma NoneInOrder()
    ensures InOrder([])
  {
  }

  lemma ToolKept(s: Session, e: Event)
    requires ToolsOk(s.tools) && !Valid(e.ordinal)
    ensures ToolsOk(PositionTool(s, e, NO_STORE).0.tools)
  {
    if IsTool(e.kind) && Given(e.toolCallId) {
      var eventId := Or(e.eventId, s.activeEventId);
      var key := ToolKey(eventId, e.toolCallId.value);
      var list := ListOf(s.tools, key);
      NoneInOrder();
      hide Trim, AttachInvocation, MarkInvocation, ToolKey, InOrder;
      assert InOrder(list);
      AttachesToLatest(list, e, Given(eventId));
      var (vs, i) := AttachInvocation(list, e, Given(eventId), NO_STORE);
      MarkKeepsOrder(vs, i, e, Given(eventId));
      var marked := vs[i := MarkInvocation(vs[i], e, Given(eventId))];
      SetValid(s.tools, key, marked);
      hide ValidMap;
      TrimKeepsTools(Set(s.tools, key, marked));
    }
  }

  lemma PositionKeepsTools(s: Session, e: Event, now: int)
    requires ToolsOk(s.tools) && ValidMap(s.parts) && !Valid(e.ordinal)
    ensures ToolsOk(PositionIn(s, e, now, NO_STORE).0.tools)
  {
    var s1 := if e.kind.MessageStarted? && Given(e.eventId) then s.(activeEventId := e.eventId) else s;
    var (s2, e2) := PositionPart(s1, e, NO_STORE);
    PartLeavesTools(s1, e);
    LifecycleParts(s, e, now);
    hide PositionPart, PositionTool, PositionIn, ToolsOk;
    ToolKept(s2, e2);
  }

  lemma PartLeavesTools(s: Session, e: Event)
    requires ValidMap(s.parts)
    ensures PositionPart(s, e, NO_STORE).0.tools == s.tools && PositionPart(s, e, NO_STORE).1.ordinal == e.ordinal
  {
    hide Trim, RecordPart, ChoosePartIndex, PartKey, ValidMap, FindPart;
  }
}
