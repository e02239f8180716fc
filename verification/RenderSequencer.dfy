/** `OutputRenderSequencer` as an object: its loops and its map of sessions, updated in place. */
module RenderSequencer {
  import opened JsMap
  import opened RecentLists
  import opened SequencerSpec
  import opened SequencerLaws
  import opened SequencerRuns

  ghost predicate AllOk(m: JsMap<string, Session>) {
    ValidMap(m) && forall k <- m.vals :: Inv(m.vals[k])
  }

  // ----- The loops -----

  /** `completeSegment`, with its loop over the oldest completed segments. */
  method Complete(s: Session, key: string) returns (r: Session)
    ensures r == CompleteSegment(s, key)
  {
    r := s.(active := s.active - {key}, completed := RemoveKey(s.completed, key) + [key]);
    while |r.completed| > LIMIT
      invariant ForgetOldest(r) == CompleteSegment(s, key)
      decreases |r.completed|
    {
      var oldest := r.completed[0];
      r := r.(completed := r.completed[1..]);
      if oldest !in r.active {
        r := r.(positions := Delete(r.positions, oldest), segmentEvents := r.segmentEvents - {oldest});
      }
    }
  }

  method Lifecycle(s: Session, e: Event, key: Option<string>, turn: Option<string>) returns (r: Session)
    ensures r == UpdateLifecycle(s, e, key, turn)
  {
    hide CompleteSegment, Ends;
    r := s;
    if key.Some? && key.value !in r.segmentEvents {
      r := r.(segmentEvents := r.segmentEvents[key.value := turn]);
    }
    if IsBoundary(e.kind) {
      r := CompleteTurn(r, e);
    } else if key.Some? {
      if CompletesWith(e.kind) {
        r := Complete(r, key.value);
      } else if RemainsActive(e.kind) {
        r := r.(completed := RemoveKey(r.completed, key.value), active := r.active + {key.value});
      }
    }
  }

  /** The loop at the end of a turn. A key deleted on the way is not visited any more. */
  method CompleteTurn(s: Session, e: Event) returns (r: Session)
    ensures r == CompleteAll(s, e, s.positions.keys)
  {
    hide CompleteSegment, Ends;
    r := s;
    var keys := s.positions.keys;
    for i := 0 to |keys|
      invariant CompleteAll(s, e, keys) == CompleteAll(r, e, keys[i..])
    {
      assert keys[i..][0] == keys[i] && keys[i..][1..] == keys[i + 1..];
      if keys[i] in r.positions.vals && Ends(r, e, keys[i]) {
        r := Complete(r, keys[i]);
      }
    }
  }

  method TrimAll(m: JsMap<string, Session>) returns (r: JsMap<string, Session>)
    ensures r == TrimSessions(m)
  {
    hide EvictableKeys;
    r := m;
    var removable := EvictableKeys(m.keys, m.vals);
    while |removable| > LIMIT
      invariant DropSessions(r, removable) == TrimSessions(m)
      decreases |removable|
    {
      r := Delete(r, removable[0]);
      removable := removable[1..];
    }
  }

  // ----- Identity -----

  method AssignPart(s: Session, e: Event, store: Answers) returns (r: Session, f: Event)
    requires Usable(s)
    ensures (r, f) == PositionPart(s, e, store)
  {
    hide RecordPart, ChoosePartIndex, KeepsPartIndex, ValidMap, PartKey, Trim;
    var turn := PartTurn(s, e);
    if turn.None? {
      return s, e;
    }
    var key := PartKey(turn.value, PartKindOf(e.kind).value);
    var parts := ListOf(s.parts, key);
    var index := ChoosePartIndex(parts, e, store);
    if KeepsPartIndex(parts, e) {
      assert e.partIndex.Some? by { KeptIndexGiven(parts, e); }
      index := e.partIndex.value;
    }
    var recorded := RecordPart(parts, index, PartEnds(e.kind), e.identity);
    SetValid(s.parts, key, recorded);
    var trimmed := TrimLists(Set(s.parts, key, recorded), PartClosed, LIMIT);
    r, f := s.(parts := trimmed), e.(partIndex := Some(index));
  }

  lemma KeptIndexGiven(parts: seq<Part>, e: Event)
    ensures KeepsPartIndex(parts, e) ==> e.partIndex.Some?
  {
  }

  method AssignTool(s: Session, e: Event, store: Answers) returns (r: Session, f: Event)
    requires Usable(s)
    ensures (r, f) == PositionTool(s, e, store)
  {
    hide AttachInvocation, MarkInvocation, ValidMap, ToolKey, Trim;
    if !IsTool(e.kind) || !Given(e.toolCallId) {
      return s, e;
    }
    var eventId := Or(e.eventId, s.activeEventId);
    var key := ToolKey(eventId, e.toolCallId.value);
    var (vs, i) := AttachInvocation(ListOf(s.tools, key), e, Given(eventId), store);
    var marked := vs[i := MarkInvocation(vs[i], e, Given(eventId))];
    SetValid(s.tools, key, marked);
    var trimmed := TrimLists(Set(s.tools, key, marked), InvocationClosed, LIMIT);
    r := s.(tools := trimmed);
    f := e.(eventId := if Given(e.eventId) then e.eventId else eventId, ordinal := Some(vs[i].ordinal));
  }

  method AssignIdentity(s: Session, e: Event, store: Answers) returns (r: Session, f: Event)
    requires Usable(s)
    ensures (r, f) == Identify(s, e, store)
  {
    hide PositionPart, PositionTool;
    r := s;
    if e.kind.MessageStarted? && Given(e.eventId) {
      r := r.(activeEventId := e.eventId);
    }
    PositionPartKeeps(r, e, store);
    r, f := AssignPart(r, e, store);
    r, f := AssignTool(r, f, store);
  }

  method AssignPosition(s: Session, e: Event, now: int, store: Answers) returns (r: Session, f: Event)
    ensures (r, f) == Place(s, e, now, store)
  {
    hide SegmentKey;
    var key := SegmentKey(e, s.activeEventId);
    var n;
    if Valid(e.renderSequence) {
      n := e.renderSequence.value;
    } else if key.Some? && key.value in s.positions.vals {
      n := s.positions.vals[key.value];
    } else {
      n := NextSequence(s, now, store);
    }
    r := s.(last := Max(s.last, n));
    if key.Some? && key.value !in r.positions.vals {
      r := r.(positions := Set(r.positions, key.value, n));
    }
    f := e.(renderSequence := Some(n));
  }

  method PositionEvent(s: Session, e: Event, now: int, store: Answers) returns (r: Session, f: Event)
    requires Usable(s)
    ensures (r, f) == PositionIn(s, e, now, store)
  {
    hide Identify, Place, SegmentKey, UpdateLifecycle;
    r, f := AssignIdentity(s, e, store);
    var key := SegmentKey(f, r.activeEventId);
    r, f := AssignPosition(r, f, now, store);
    if ClearsTurn(r, e) {
      r := r.(activeEventId := None);
    }
    r := Lifecycle(r, f, key, if Given(f.eventId) then f.eventId else r.activeEventId);
  }

  // ----- The sequencer -----

  class OutputRenderSequencer {
    var sessions: JsMap<string, Session>

    ghost predicate Valid()
      reads this
    {
      AllOk(sessions)
    }

    constructor ()
      ensures Valid() && sessions == EmptyMap()
    {
      sessions := EmptyMap();
    }

    /** `position`: the event with its identity and position, which the session then has on record. */
    method Position(e: Event, now: int, store: Answers) returns (positioned: Event)
      requires Valid()
      modifies this
      ensures Valid()
      ensures (forall k <- old(sessions).vals :: Usable(old(sessions).vals[k]))
              && (sessions, positioned) == SequencerSpec.Position(old(sessions), e, now, store)
      ensures e.session in sessions.vals
      ensures forall k <- old(sessions).vals :: k != e.session && !Evictable(old(sessions).vals[k]) ==>
                k in sessions.vals && sessions.vals[k] == old(sessions).vals[k]
    {
      SessionsUsable(sessions);
      hide PositionIn, Inv, ValidMap, TrimSessions, AllOk;
      var s := GetOr(sessions, e.session, NewSession());
      SessionOk(sessions, e.session);
      var s', f := PositionEvent(s, e, now, store);
      PositionInKeeps(s, e, now, store);
      PositionMapOk(sessions, e.session, s');
      sessions := Set(Touch(sessions, e.session), e.session, s');
      sessions := TrimAll(sessions);
      positioned := f;
    }

    method DisposeSession(id: string)
      requires Valid()
      modifies this
      ensures Valid() && sessions == Delete(old(sessions), id)
    {
      DeleteValid(sessions, id);
      hide ValidMap, Inv;
      sessions := Delete(sessions, id);
    }
  }

  lemma SessionsUsable(m: JsMap<string, Session>)
    requires AllOk(m)
    ensures forall k <- m.vals :: Usable(m.vals[k])
  {
    hide ValidMap, SegmentsOk, PositionsOk, Usable;
  }

  lemma SessionOk(m: JsMap<string, Session>, id: string)
    requires AllOk(m)
    ensures Inv(GetOr(m, id, NewSession())) && Usable(GetOr(m, id, NewSession()))
  {
    NewSessionOk();
    hide ValidMap, SegmentsOk, PositionsOk, Usable;
  }

  /** Storing the event's session last and trimming keeps every session well formed, and those in progress. */
  lemma PositionMapOk(m: JsMap<string, Session>, id: string, s': Session)
    requires AllOk(m) && Inv(s')
    ensures var m1 := Set(Touch(m, id), id, s');
            && AllOk(TrimSessions(m1)) && id in TrimSessions(m1).vals
            && forall k <- m.vals :: k != id && !Evictable(m.vals[k]) ==>
                 k in TrimSessions(m1).vals && TrimSessions(m1).vals[k] == m.vals[k]
  {
    StoredLast(m, id, s');
    var m1 := Set(Touch(m, id), id, s');
    hide *;
    TrimmedOk(m1, id);
    forall k <- m.vals | k != id && !Evictable(m.vals[k])
      ensures k in TrimSessions(m1).vals && TrimSessions(m1).vals[k] == m.vals[k]
    {
      ActiveStay(m1, k);
    }
  }

  lemma StoredLast(m: JsMap<string, Session>, id: string, s': Session)
    requires AllOk(m) && Inv(s')
    ensures var m1 := Set(Touch(m, id), id, s');
            && AllOk(m1) && m1.keys != [] && m1.keys[|m1.keys| - 1] == id
            && forall k <- m.vals :: k != id ==> k in m1.vals && m1.vals[k] == m.vals[k]
  {
    DeleteValid(m, id);
    SetValid(Delete(m, id), id, GetOr(m, id, NewSession()));
    SetValid(Touch(m, id), id, s');
    hide ValidMap, Inv, RemoveKey;
    assert Set(Touch(m, id), id, s').keys == RemoveKey(m.keys, id) + [id];
  }

  lemma ActiveStay(m: JsMap<string, Session>, k: string)
    requires AllOk(m) && k in m.vals && !Evictable(m.vals[k])
    ensures k in TrimSessions(m).vals && TrimSessions(m).vals[k] == m.vals[k]
  {
    hide Inv, ValidMap;
    ActiveSessionsStay(m, k);
  }

  lemma TrimmedOk(m: JsMap<string, Session>, id: string)
    requires AllOk(m) && m.keys != [] && m.keys[|m.keys| - 1] == id
    ensures AllOk(TrimSessions(m)) && id in TrimSessions(m).vals
  {
    hide Inv, ValidMap, EvictableKeys, DropSessions;
    NewestSessionStays(m, id);
    DropKeeps(m, EvictableKeys(m.keys, m.vals));
  }
}
