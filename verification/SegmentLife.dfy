/** When a segment is in progress. */
module SegmentLife {
  // Which events begin and end a segment, and what the end of a turn leaves in progress.

  import opened JsMap
  import opened SequencerSpec
  import opened SequencerLaws

  /** Deltas, starts and updates keep a segment in progress. */
  const GOING: set<Kind> :=
    {MessageStarted, AssistantDelta, ThinkingStarted, ThinkingDelta, ToolCall, ToolStarted, ToolUpdated}

  /** The last event of a segment. */
  const FINAL: set<Kind> :=
    {AssistantMessage, ThinkingFinished, ToolFinished, ExecutionResult, CompactionEnd, ApprovalResolved,
     UserInputResolved}

  /** The turns of the segments still on record do not change. */
  ghost predicate TurnsKept(s: Session, s': Session) {
    forall k <- s'.segmentEvents :: k in s.segmentEvents && s'.segmentEvents[k] == s.segmentEvents[k]
  }

  lemma {:induction false} ForgetKeepsTurns(s: Session)
    ensures TurnsKept(s, ForgetOldest(s))
    decreases |s.completed|
  {
    if |s.completed| > LIMIT {
      var oldest := s.completed[0];
      var s1 := s.(completed := s.completed[1..]);
      ForgetKeepsTurns(if oldest in s.active then s1
                       else s1.(positions := Delete(s.positions, oldest), segmentEvents := s.segmentEvents - {oldest}));
    }
  }

  lemma CompleteKeepsTurns(s: Session, key: string)
    ensures TurnsKept(s, CompleteSegment(s, key))
  {
    ForgetKeepsTurns(s.(active := s.active - {key}, completed := RemoveKey(s.completed, key) + [key]));
    hide ForgetOldest, RemoveKey;
  }

  /** Going through the segments at the end of a turn ends those in progress that are the turn's, and no others. */
  lemma {:induction false} AllEnd(s: Session, e: Event, keys: seq<string>)
    requires SegmentsOk(s) && PositionsOk(s) && |s.completed| <= LIMIT
    ensures forall k :: k in CompleteAll(s, e, keys).active <==> k in s.active && !(k in keys && Ends(s, e, k))
    ensures TurnsKept(s, CompleteAll(s, e, keys))
    decreases |keys|
  {
    hide CompleteSegment, ValidMap, Distinct;
    if keys != [] {
      var ends := keys[0] in s.positions.vals && Ends(s, e, keys[0]);
      var s1 := if ends then CompleteSegment(s, keys[0]) else s;
      if ends {
        CompleteSegmentKeeps(s, keys[0]);
        CompleteKeepsTurns(s, keys[0]);
      }
      AllEnd(s1, e, keys[1..]);
      forall k ensures k in CompleteAll(s, e, keys).active <==> k in s.active && !(k in keys && Ends(s, e, k)) {
        assert k in keys <==> k == keys[0] || k in keys[1..];
      }
    }
  }

  /** What positioning comes to for the segments in progress. */
  lemma LifecycleIs(s: Session, e: Event, now: int, store: Answers)
    requires Inv(s)
    ensures var key := KeyOf(s, e, store);
            exists s5: Session, f: Event, turn: Option<string> ::
              && PositionIn(s, e, now, store).0 == UpdateLifecycle(s5, f, key, turn) && f.kind == e.kind
              && Usable(s5) && AlmostOk(s5, key) && s5.active == s.active && s5.completed == s.completed
              && s5.segmentEvents == s.segmentEvents && (Given(e.eventId) ==> f.eventId == e.eventId && turn == e.eventId)
              && f.eventId == Identify(s, e, store).1.eventId
  {
    IdentifyKeeps(s, e, store);
    var (s3, e3) := Identify(s, e, store);
    SameSegments(s, s3);
    PlaceKeeps(s3, e3, now, store);
    PlacePositions(s3, e3, now, store);
    PositionInIs(s, e, now, store);
    var (s4, e4) := Place(s3, e3, now, store);
    var s5 := if ClearsTurn(s4, e) then s4.(activeEventId := None) else s4;
    hide Identify, Place, SegmentKey, UpdateLifecycle, Usable, ClearsTurn, Inv, AlmostOk;
    SameAlmost(s4, s5, SegmentKey(e3, s3.activeEventId));
    assert PositionIn(s, e, now, store).0
        == UpdateLifecycle(s5, e4, KeyOf(s, e, store), if Given(e4.eventId) then e4.eventId else s5.activeEventId);
  }

  /**
   * Within a turn: an event that keeps its segment going has it in progress, a final one ends it, and any other leaves
   * what is in progress alone.
   */
  lemma SegmentLives(s: Session, e: Event, now: int, store: Answers)
    requires Inv(s) && e.kind != MessageFinished && e.kind != SessionError && KeyOf(s, e, store).Some?
    ensures var s', key := PositionIn(s, e, now, store).0, KeyOf(s, e, store).value;
            && (e.kind in GOING ==> s'.active == s.active + {key} && key !in s'.completed)
            && (e.kind in FINAL ==> s'.active == s.active - {key} && key in s'.completed)
            && (e.kind !in GOING + FINAL ==> s'.active == s.active && s'.completed == s.completed)
  {
    LifecycleIs(s, e, now, store);
    var key := KeyOf(s, e, store);
    hide PositionIn, KeyOf, Inv;
    var s5, f, turn :| && PositionIn(s, e, now, store).0 == UpdateLifecycle(s5, f, key, turn) && f.kind == e.kind
                       && Usable(s5) && AlmostOk(s5, key) && s5.active == s.active && s5.completed == s.completed
                       && s5.segmentEvents == s.segmentEvents;
    KindsAre(e.kind);
    UpdateLives(s5, f, key.value, turn);
  }

  lemma KindsAre(k: Kind)
    ensures k in GOING <==> RemainsActive(k)
    ensures k in FINAL <==> CompletesWith(k)
    ensures k == MessageFinished || k == SessionError <==> IsBoundary(k)
  {
  }

  lemma UpdateLives(s: Session, e: Event, key: string, turn: Option<string>)
    requires Usable(s) && AlmostOk(s, Some(key)) && !IsBoundary(e.kind)
    ensures var s' := UpdateLifecycle(s, e, Some(key), turn);
            && (RemainsActive(e.kind) ==> s'.active == s.active + {key} && key !in s'.completed)
            && (CompletesWith(e.kind) ==> s'.active == s.active - {key} && key in s'.completed)
            && (!RemainsActive(e.kind) && !CompletesWith(e.kind) ==> s'.active == s.active && s'.completed == s.completed)
  {
    TurnRecorded(s, Some(key), turn);
    var s1 := if key !in s.segmentEvents then s.(segmentEvents := s.segmentEvents[key := turn]) else s;
    hide CompleteSegment, AlmostOk;
    RemoveKeyMembers(s1.completed, key);
    if CompletesWith(e.kind) {
      CompleteSegmentKeeps(s1, key);
    }
    hide SegmentsOk, PositionsOk, RemoveKey;
  }

  /**
   * When a turn ends, none of its segments stays in progress and those of other turns do; an error that names no turn
   * ends them all.
   */
  lemma TurnLeavesNone(s: Session, e: Event, now: int, store: Answers)
    requires Inv(s) && (e.kind == MessageFinished || e.kind == SessionError)
    ensures var s' := PositionIn(s, e, now, store).0;
            && (forall k <- s'.active :: k in s.active && k in s.segmentEvents)
            && (Given(e.eventId) ==>
                  forall k <- s.active :: k in s'.active <==> s.segmentEvents[k] != e.eventId)
            && (e.kind == SessionError && !Given(e.eventId) ==> s'.active == {})
  {
    ErrorKeepsTurn(s, e, store);
    LifecycleIs(s, e, now, store);
    ActiveRecorded(s);
    var key := KeyOf(s, e, store);
    hide PositionIn, KeyOf, Inv, Identify;
    var s5, f, turn :| && PositionIn(s, e, now, store).0 == UpdateLifecycle(s5, f, key, turn) && f.kind == e.kind
                       && Usable(s5) && AlmostOk(s5, key) && s5.active == s.active && s5.completed == s.completed
                       && s5.segmentEvents == s.segmentEvents
                       && (Given(e.eventId) ==> f.eventId == e.eventId && turn == e.eventId)
                       && f.eventId == Identify(s, e, store).1.eventId;
    TurnRecorded(s5, key, turn);
    var s1 := if key.Some? && key.value !in s5.segmentEvents then s5.(segmentEvents := s5.segmentEvents[key.value := turn])
              else s5;
    hide AlmostOk, Usable;
    AllEnd(s1, f, s1.positions.keys);
    ActivePlaced(s1);
    hide SegmentsOk, PositionsOk, CompleteAll;
  }

  /** Which turn is active after an event: a started message's, none after its end or an error, else as before. */
  lemma TurnExactly(s: Session, e: Event, now: int, store: Answers)
    requires Inv(s)
    ensures PositionIn(s, e, now, store).0.activeEventId
         == if e.kind == MessageStarted && Given(e.eventId) then e.eventId
            else if e.kind == MessageFinished && Given(e.eventId) && s.activeEventId == e.eventId then None
            else if e.kind == SessionError && (!Given(e.eventId) || s.activeEventId == e.eventId) then None
            else s.activeEventId
  {
    IdentifyKeeps(s, e, store);
    var (s3, e3) := Identify(s, e, store);
    SameSegments(s, s3);
    PlaceKeeps(s3, e3, now, store);
    PlacePositions(s3, e3, now, store);
    PositionInIs(s, e, now, store);
    var (s4, e4) := Place(s3, e3, now, store);
    var s5 := if ClearsTurn(s4, e) then s4.(activeEventId := None) else s4;
    hide Identify, Place, SegmentKey, UpdateLifecycle, Inv, AlmostOk, ValidMap;
    SameAlmost(s4, s5, SegmentKey(e3, s3.activeEventId));
    UpdateLifecycleKeeps(s5, e4, SegmentKey(e3, s3.activeEventId), if Given(e4.eventId) then e4.eventId else s5.activeEventId);
  }

  lemma ErrorKeepsTurn(s: Session, e: Event, store: Answers)
    requires Usable(s)
    ensures e.kind == SessionError ==> Identify(s, e, store).1.eventId == e.eventId
  {
    hide ValidMap;
  }

  lemma ActiveRecorded(s: Session)
    requires Inv(s)
    ensures forall k <- s.active :: k in s.segmentEvents
  {
  }

  lemma ActivePlaced(s: Session)
    requires SegmentsOk(s)
    ensures forall k <- s.active :: k in s.positions.keys
  {
  }
}
