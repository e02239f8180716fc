/** Positions and segments of a session. */
module SequencerLaws {
  // Positions and segments of one tracked session.

  import opened JsMap
  import opened JsNumber
  import opened RecentLists
  import opened SequencerSpec

  // ----- Segments -----

  /** Active and completed segments are apart, and both have a position. */
  ghost predicate SegmentsOk(s: Session) {
    && ValidMap(s.positions) && Distinct(s.completed)
    && (forall k <- s.active :: k in s.positions.vals && k !in s.completed)
    && (forall k <- s.completed :: k in s.positions.vals)
  }

  /** Positions run from 0 to the last one. */
  ghost predicate Bounded(s: Session) {
    s.last >= 0 && IsNumber(s.last) && forall k <- s.positions.vals :: 0 <= s.positions.vals[k] <= s.last
  }

  /** And every segment on record has one. */
  ghost predicate PositionsOk(s: Session) {
    Bounded(s) && s.segmentEvents.Keys == s.positions.vals.Keys
  }

  ghost predicate Inv(s: Session) {
    Usable(s) && SegmentsOk(s) && PositionsOk(s) && |s.completed| <= LIMIT
  }

  /** The positions of `s'` are those of `s` with some forgotten, but none of an active segment. */
  ghost predicate Forgets(s: Session, s': Session) {
    && (forall k <- s'.positions.vals :: k in s.positions.vals && s'.positions.vals[k] == s.positions.vals[k])
    && (forall k <- s'.active :: k in s.active)
    && s'.last == s.last && s'.activeEventId == s.activeEventId && s'.tools == s.tools && s'.parts == s.parts
  }

  lemma {:induction false} ForgetOldestKeeps(s: Session)
    requires SegmentsOk(s) && PositionsOk(s)
    ensures var s' := ForgetOldest(s);
            && SegmentsOk(s') && PositionsOk(s') && |s'.completed| <= LIMIT && Forgets(s, s')
            && s'.active == s.active && s'.completed == LastN(s.completed)
    decreases |s.completed|
  {
    if |s.completed| > LIMIT {
      var oldest := s.completed[0];
      assert oldest !in s.active;
      var s1 := s.(completed := s.completed[1..], positions := Delete(s.positions, oldest),
                   segmentEvents := s.segmentEvents - {oldest});
      ForgetOneKeeps(s);
      hide SegmentsOk, PositionsOk;
      ForgetOldestKeeps(s1);
      ForgetStep(s);
    }
  }

  function LastN(s: seq<string>): seq<string> {
    if |s| > LIMIT then s[|s| - LIMIT..] else s
  }

  lemma ForgetStep(s: Session)
    requires |s.completed| > LIMIT && s.completed[0] !in s.active
    ensures ForgetOldest(s) == ForgetOldest(s.(completed := s.completed[1..], positions := Delete(s.positions, s.completed[0]),
                                               segmentEvents := s.segmentEvents - {s.completed[0]}))
    ensures LastN(s.completed) == LastN(s.completed[1..])
  {
  }

  lemma ForgetOneKeeps(s: Session)
    requires SegmentsOk(s) && PositionsOk(s) && s.completed != []
    ensures var s1 := s.(completed := s.completed[1..], positions := Delete(s.positions, s.completed[0]),
                         segmentEvents := s.segmentEvents - {s.completed[0]});
            SegmentsOk(s1) && PositionsOk(s1) && Forgets(s, s1)
  {
    hide ToNumber, IsNumber;
    DeleteValid(s.positions, s.completed[0]);
    hide ValidMap;
  }

  lemma CompleteSegmentKeeps(s: Session, key: string)
    requires SegmentsOk(s) && PositionsOk(s) && key in s.positions.vals
    ensures var s' := CompleteSegment(s, key);
            && SegmentsOk(s') && PositionsOk(s') && |s'.completed| <= LIMIT && Forgets(s, s')
            && s'.active == s.active - {key} && key in s'.completed && key in s'.positions.vals
  {
    var s1 := s.(active := s.active - {key}, completed := RemoveKey(s.completed, key) + [key]);
    RemoveKeyMembers(s.completed, key);
    assert SegmentsOk(s1) && PositionsOk(s1) by {
      hide ValidMap, RemoveKey;
    }
    hide SegmentsOk, PositionsOk, ForgetOldest, RemoveKey;
    ForgetOldestKeeps(s1);
    assert s1.completed[|s1.completed| - 1] == key;
    assert LastN(s1.completed)[|LastN(s1.completed)| - 1] == key;
    assert key in LastN(s1.completed);
    assert SegmentsOk(CompleteSegment(s, key)) ==> key in CompleteSegment(s, key).positions.vals by {
      CompletedTracked(CompleteSegment(s, key), key);
    }
  }

  lemma CompletedTracked(s: Session, key: string)
    ensures SegmentsOk(s) && key in s.completed ==> key in s.positions.vals
  {
  }

  lemma {:induction false} CompleteAllKeeps(s: Session, e: Event, keys: seq<string>)
    requires SegmentsOk(s) && PositionsOk(s) && |s.completed| <= LIMIT
    ensures var s' := CompleteAll(s, e, keys);
            SegmentsOk(s') && PositionsOk(s') && |s'.completed| <= LIMIT && Forgets(s, s')
    decreases |keys|
  {
    hide SegmentsOk, PositionsOk, CompleteSegment, Ends;
    if keys != [] {
      var s1 := if keys[0] in s.positions.vals && Ends(s, e, keys[0]) then CompleteSegment(s, keys[0]) else s;
      if s1 != s {
        CompleteSegmentKeeps(s, keys[0]);
      }
      CompleteAllKeeps(s1, e, keys[1..]);
    }
  }

  /** A key just placed may still lack its turn on record. */
  ghost predicate AlmostOk(s: Session, key: Option<string>) {
    && SegmentsOk(s) && |s.completed| <= LIMIT
    && Bounded(s) && (key.Some? ==> key.value in s.positions.vals)
    && s.positions.vals.Keys == s.segmentEvents.Keys + (if key.Some? then {key.value} else {})
  }

  lemma TurnRecorded(s: Session, key: Option<string>, turn: Option<string>)
    requires AlmostOk(s, key)
    ensures var s1 := if key.Some? && key.value !in s.segmentEvents
                      then s.(segmentEvents := s.segmentEvents[key.value := turn]) else s;
            && SegmentsOk(s1) && PositionsOk(s1) && |s1.completed| <= LIMIT
            && (key.Some? ==> key.value in s1.positions.vals)
  {
    hide ToNumber, IsNumber, ValidMap;
  }

  lemma UpdateLifecycleKeeps(s: Session, e: Event, key: Option<string>, turn: Option<string>)
    requires Usable(s) && AlmostOk(s, key)
    ensures var s' := UpdateLifecycle(s, e, key, turn);
            && Inv(s') && (forall k <- s'.positions.vals :: k in s.positions.vals && s'.positions.vals[k] == s.positions.vals[k])
            && s'.last == s.last && s'.parts == s.parts && s'.tools == s.tools
            && (forall k <- s'.active :: k in s.active || key == Some(k))
            && (key.Some? && !IsBoundary(e.kind) ==> key.value in s'.positions.vals)
            && s'.activeEventId == s.activeEventId
  {
    var s1 := if key.Some? && key.value !in s.segmentEvents then s.(segmentEvents := s.segmentEvents[key.value := turn]) else s;
    TurnRecorded(s, key, turn);
    hide ToNumber, IsNumber, ValidMap, AlmostOk, Bounded;
    if IsBoundary(e.kind) {
      hide SegmentsOk, PositionsOk, CompleteAll;
      CompleteAllKeeps(s1, e, s1.positions.keys);
    } else if key.Some? {
      hide CompleteSegment;
      if CompletesWith(e.kind) {
        hide SegmentsOk, PositionsOk;
        CompleteSegmentKeeps(s1, key.value);
      } else if RemainsActive(e.kind) {
        ActivateKeeps(s1, key.value);
        hide SegmentsOk, PositionsOk, RemoveKey;
      }
    }
  }

  lemma ActivateKeeps(s: Session, key: string)
    requires SegmentsOk(s) && PositionsOk(s) && key in s.positions.vals && |s.completed| <= LIMIT
    ensures var s' := s.(completed := RemoveKey(s.completed, key), active := s.active + {key});
            SegmentsOk(s') && PositionsOk(s') && |s'.completed| <= LIMIT
  {
    RemoveKeyMembers(s.completed, key);
    hide ValidMap;
  }

  // ----- One event -----

  lemma NewSessionOk()
    ensures Inv(NewSession())
  {
  }

  lemma NextIs(s: Session, now: int, store: Answers)
    requires Bounded(s)
    ensures var n := NextSequence(s, now, store);
            n >= s.last && IsNumber(n) && (n > s.last <==> Advances(s.last, now, store))
  {
    hide ToNumber, IsNumber, Increments;
    Successor(s.last);
    RoundedIsNumber(now * SLOTS);
    RoundedIsNumber(s.last + 1);
    if store.position.Some? {
      RoundedIsNumber(store.position.value);
    }
  }

  lemma PlaceKeeps(s: Session, e: Event, now: int, store: Answers)
    requires Inv(s)
    ensures var (s', e') := Place(s, e, now, store);
            AlmostOk(s', SegmentKey(e, s.activeEventId)) && Usable(s') && e'.renderSequence.Some?
            && e'.renderSequence.value <= s'.last && s.last <= s'.last
  {
    var n := Place(s, e, now, store).1.renderSequence.value;
    PlacedNumber(s, e, now, store);
    PlaceMap(s, e, now, store);
    hide SegmentKey, NextSequence, ToNumber, IsNumber, ValidMap, Distinct, Place;
  }

  lemma PlacedNumber(s: Session, e: Event, now: int, store: Answers)
    requires Bounded(s)
    ensures var (s', e') := Place(s, e, now, store);
            e'.renderSequence.Some? && e'.renderSequence.value >= 0 && IsNumber(s'.last)
            && s'.last == Max(s.last, e'.renderSequence.value)
  {
    hide SegmentKey, NextSequence, ToNumber, IsNumber, Advances;
    NextIs(s, now, store);
    ValidIsNumber(e.renderSequence);
  }

  lemma PlaceMap(s: Session, e: Event, now: int, store: Answers)
    requires ValidMap(s.positions)
    ensures var (s', e') := Place(s, e, now, store);
            var key := SegmentKey(e, s.activeEventId);
            && s' == s.(last := s'.last, positions := s'.positions) && ValidMap(s'.positions)
            && s'.positions.vals == if key.Some? && key.value !in s.positions.vals
                                    then s.positions.vals[key.value := e'.renderSequence.value] else s.positions.vals
  {
    hide SegmentKey, NextSequence;
    var key := SegmentKey(e, s.activeEventId);
    if key.Some? {
      SetValid(s.positions, key.value, Place(s, e, now, store).1.renderSequence.value);
    }
    hide ValidMap;
  }

  /** Finding an event's part and tool invocation leaves the segments alone. */
  lemma IdentifyKeeps(s: Session, e: Event, store: Answers)
    requires Usable(s)
    ensures var (s', e') := Identify(s, e, store);
            && Usable(s') && s'.positions == s.positions && s'.segmentEvents == s.segmentEvents && s'.active == s.active
            && s'.completed == s.completed && s'.last == s.last
            && e'.renderSequence == e.renderSequence && e'.kind == e.kind && e'.session == e.session
            && (Given(e.eventId) ==> e'.eventId == e.eventId)
            && s'.activeEventId == if e.kind.MessageStarted? && Given(e.eventId) then e.eventId else s.activeEventId
  {
    var s1 := if e.kind.MessageStarted? && Given(e.eventId) then s.(activeEventId := e.eventId) else s;
    PositionPartKeeps(s1, e, store);
    var (s2, e2) := PositionPart(s1, e, store);
    PositionToolKeeps(s2, e2, store);
    hide PositionPart, PositionTool;
  }

  lemma PositionPartKeeps(s: Session, e: Event, store: Answers)
    requires Usable(s)
    ensures var (s', e') := PositionPart(s, e, store);
            Usable(s') && s' == s.(parts := s'.parts) && e' == e.(partIndex := e'.partIndex)
  {
    hide Trim, RecordPart, ChoosePartIndex, PartKey, ValidMap, FindPart;
    var turn := PartTurn(s, e);
    if turn.Some? {
      var key := PartKey(turn.value, PartKindOf(e.kind).value);
      var parts := ListOf(s.parts, key);
      var index := if KeepsPartIndex(parts, e) then e.partIndex.value else ChoosePartIndex(parts, e, store);
      var recorded := RecordPart(parts, index, PartEnds(e.kind), e.identity);
      SetValid(s.parts, key, recorded);
      TrimKeeps(Set(s.parts, key, recorded), PartClosed, LIMIT);
    }
  }

  lemma PositionToolKeeps(s: Session, e: Event, store: Answers)
    requires Usable(s)
    ensures var (s', e') := PositionTool(s, e, store);
            Usable(s') && s' == s.(tools := s'.tools) && e' == e.(eventId := e'.eventId, ordinal := e'.ordinal)
            && (Given(e.eventId) ==> e'.eventId == e.eventId)
  {
    hide Trim, AttachInvocation, MarkInvocation, ToolKey, ValidMap;
    if IsTool(e.kind) && Given(e.toolCallId) {
      var eventId := Or(e.eventId, s.activeEventId);
      var key := ToolKey(eventId, e.toolCallId.value);
      var (vs, i) := AttachInvocation(ListOf(s.tools, key), e, Given(eventId), store);
      var marked := vs[i := MarkInvocation(vs[i], e, Given(eventId))];
      SetValid(s.tools, key, marked);
      TrimKeeps(Set(s.tools, key, marked), InvocationClosed, LIMIT);
    }
  }

  /** The segment an event is placed in. */
  function KeyOf(s: Session, e: Event, store: Answers): Option<string>
    requires ValidMap(s.parts) && ValidMap(s.tools)
  {
    var (s3, e3) := Identify(s, e, store);
    SegmentKey(e3, s3.activeEventId)
  }

  /** The event gets a new position: it brings none, and its segment is not on record. */
  ghost predicate Fresh(s: Session, e: Event, store: Answers) {
    Usable(s) && !Valid(e.renderSequence)
    && (KeyOf(s, e, store).Some? ==> KeyOf(s, e, store).value !in s.positions.vals)
  }

  /**
   * What one event does to the positions. A new position is not below anything the session has given out, whatever
   * the clock says, and above all of it exactly when the numbers let it advance; an event of a segment on record gets
   * that segment's position unless it brings its own; and no position on record ever changes.
   */
  lemma PositionInKeeps(s: Session, e: Event, now: int, store: Answers)
    requires Inv(s)
    ensures var (s', e') := PositionIn(s, e, now, store);
            var key := KeyOf(s, e, store);
            && Inv(s') && e'.renderSequence.Some?
            && (Fresh(s, e, store) ==> e'.renderSequence.value >= s.last)
            && (Fresh(s, e, store) ==> (e'.renderSequence.value > s.last <==> Advances(s.last, now, store)))
            && s'.last == Max(s.last, e'.renderSequence.value)
            && (Valid(e.renderSequence) ==> e'.renderSequence == e.renderSequence)
            && (!Valid(e.renderSequence) && !Fresh(s, e, store) ==>
                  key.Some? && key.value in s.positions.vals && e'.renderSequence.value == s.positions.vals[key.value])
            && s.last <= s'.last && e'.renderSequence.value <= s'.last
            && (forall k <- s'.positions.vals :: k in s.positions.vals ==> s'.positions.vals[k] == s.positions.vals[k])
            && (forall k <- s'.positions.vals :: k !in s.positions.vals ==>
                  key == Some(k) && s'.positions.vals[k] == e'.renderSequence.value)
            && (key.Some? && !IsBoundary(e.kind) ==> key.value in s'.positions.vals)
  {
    IdentifyKeeps(s, e, store);
    var (s3, e3) := Identify(s, e, store);
    SameSegments(s, s3);
    hide *;
    PlacedKeeps(s3, e3, e, now, store);
    var (s4, e4) := Place(s3, e3, now, store);
    PositionInIs(s, e, now, store);
  }

  lemma PositionInIs(s: Session, e: Event, now: int, store: Answers)
    requires Usable(s)
    ensures var (s3, e3) := Identify(s, e, store);
            PositionIn(s, e, now, store) == (Settled(s3, e3, e, now, store), Place(s3, e3, now, store).1)
    ensures var (s3, e3) := Identify(s, e, store); KeyOf(s, e, store) == SegmentKey(e3, s3.activeEventId)
    ensures Fresh(s, e, store) <==>
      !Valid(e.renderSequence) && (KeyOf(s, e, store).Some? ==> KeyOf(s, e, store).value !in s.positions.vals)
  {
    hide Identify, Place, SegmentKey, UpdateLifecycle, Usable, ClearsTurn;
  }

  /** What is left to do once an event has its identity and its position. */
  function Settled(s3: Session, e3: Event, e: Event, now: int, store: Answers): Session {
    var (s4, e4) := Place(s3, e3, now, store);
    var s5 := if ClearsTurn(s4, e) then s4.(activeEventId := None) else s4;
    UpdateLifecycle(s5, e4, SegmentKey(e3, s3.activeEventId), if Given(e4.eventId) then e4.eventId else s5.activeEventId)
  }

  lemma PlacedKeeps(s3: Session, e3: Event, e: Event, now: int, store: Answers)
    requires Inv(s3) && e3.kind == e.kind
    ensures var s' := Settled(s3, e3, e, now, store);
            var f := Place(s3, e3, now, store).1;
            var key := SegmentKey(e3, s3.activeEventId);
            && Inv(s') && f.renderSequence.Some?
            && (var n := f.renderSequence.value;
                && s3.last <= s'.last && n <= s'.last && s'.last == Max(s3.last, n)
                && (if Valid(e3.renderSequence) then f.renderSequence == e3.renderSequence
                    else if key.Some? && key.value in s3.positions.vals then n == s3.positions.vals[key.value]
                    else n >= s3.last && (n > s3.last <==> Advances(s3.last, now, store)))
                && (forall k <- s'.positions.vals :: k in s3.positions.vals ==> s'.positions.vals[k] == s3.positions.vals[k])
                && (forall k <- s'.positions.vals :: k !in s3.positions.vals ==> key == Some(k) && s'.positions.vals[k] == n))
            && (key.Some? && !IsBoundary(e.kind) ==> key.value in s'.positions.vals)
  {
    PlaceKeeps(s3, e3, now, store);
    PlacePositions(s3, e3, now, store);
    var (s4, e4) := Place(s3, e3, now, store);
    var s5 := if ClearsTurn(s4, e) then s4.(activeEventId := None) else s4;
    var key := SegmentKey(e3, s3.activeEventId);
    SameAlmost(s4, s5, key);
    hide Inv, Place, AlmostOk, UpdateLifecycle, SegmentKey, Usable, ClearsTurn;
    UpdateLifecycleKeeps(s5, e4, key, if Given(e4.eventId) then e4.eventId else s5.activeEventId);
  }

  lemma SameAlmost(s: Session, s': Session, key: Option<string>)
    requires AlmostOk(s, key) && Usable(s) && s' == s.(activeEventId := s'.activeEventId)
    ensures AlmostOk(s', key) && Usable(s')
  {
  }

  lemma SameSegments(s: Session, s': Session)
    requires Inv(s) && Usable(s') && s'.positions == s.positions && s'.segmentEvents == s.segmentEvents
    requires s'.active == s.active && s'.completed == s.completed && s'.last == s.last
    ensures Inv(s')
  {
  }

  lemma PlacePositions(s: Session, e: Event, now: int, store: Answers)
    requires Bounded(s)
    ensures var (s', e') := Place(s, e, now, store);
            var key := SegmentKey(e, s.activeEventId);
            var n := e'.renderSequence.value;
            && e' == e.(renderSequence := Some(n)) && s' == s.(last := Max(s.last, n), positions := s'.positions)
            && (forall k <- s.positions.vals :: k in s'.positions.vals && s'.positions.vals[k] == s.positions.vals[k])
            && (forall k <- s'.positions.vals :: k !in s.positions.vals ==> key == Some(k) && s'.positions.vals[k] == n)
            && (if Valid(e.renderSequence) then n == e.renderSequence.value
                else if key.Some? && key.value in s.positions.vals then n == s.positions.vals[key.value]
                else n >= s.last && (n > s.last <==> Advances(s.last, now, store)))
  {
    NextIs(s, now, store);
    hide SegmentKey, Advances, NextSequence, ToNumber, IsNumber;
  }
}
