/** Runs of the render sequencer. */
module SequencerRuns {
  // Whole runs of the sequencer: monotone and stable positions, replays, and the eviction of sessions.

  import opened JsMap
  import opened JsNumber
  import opened RecentLists
  import opened SequencerSpec
  import opened SequencerLaws
  import opened OutputPartLaws

  datatype Input = Input(event: Event, now: int, store: Answers)

  ghost function Step(s: Session, i: Input): (Session, Event) {
    if Usable(s) then PositionIn(s, i.event, i.now, i.store) else (s, i.event)
  }

  /** The session after a run, and the positions it has given out. */
  ghost function Run(inputs: seq<Input>): (Session, seq<int>) {
    if inputs == [] then (NewSession(), [])
    else
      var (s, out) := Run(inputs[..|inputs| - 1]);
      var (s', e') := Step(s, inputs[|inputs| - 1]);
      (s', out + [if e'.renderSequence.Some? then e'.renderSequence.value else 0])
  }

  lemma {:induction false} RunInv(inputs: seq<Input>)
    ensures var (s, out) := Run(inputs);
            && Inv(s) && |out| == |inputs| && (forall i :: 0 <= i < |out| ==> out[i] <= s.last)
            && (s.last == 0 || s.last in out)
  {
    hide Inv, PositionIn, Fresh, Advances, KeyOf;
    if inputs == [] {
      NewSessionOk();
    } else {
      RunInv(inputs[..|inputs| - 1]);
      var (s, out) := Run(inputs[..|inputs| - 1]);
      var last := inputs[|inputs| - 1];
      InvUsable(s);
      PositionInKeeps(s, last.event, last.now, last.store);
    }
  }

  lemma InvUsable(s: Session)
    requires Inv(s)
    ensures Usable(s)
  {
  }

  /**
   * Each newly allocated position is above every one given out before, even if the clock goes back, exactly as long as
   * the numbers let it advance from the last; always so while it is a safe integer itself.
   */
  lemma FreshIsHighest(inputs: seq<Input>, next: Input)
    requires Fresh(Run(inputs).0, next.event, next.store)
    ensures var (s', out) := Run(inputs + [next]);
            && |out| == |inputs| + 1
            && ((forall i :: 0 <= i < |inputs| ==> out[i] < out[|inputs|])
                <==> Advances(Run(inputs).0.last, next.now, next.store))
            && (out[|inputs|] <= MAX_SAFE ==> Advances(Run(inputs).0.last, next.now, next.store))
  {
    hide Inv, PositionIn, Fresh, Run, KeyOf, ToNumber;
    RunInv(inputs);
    var (s, out) := Run(inputs);
    InvUsable(s);
    PositionInKeeps(s, next.event, next.now, next.store);
    RunMore(inputs, next);
    var (s', more) := Run(inputs + [next]);
    assert forall i :: 0 <= i < |inputs| ==> more[i] == out[i];
    if !Advances(s.last, next.now, next.store) {
      assert s.last > 0;
      var i :| 0 <= i < |out| && out[i] == s.last;
      assert more[i] == more[|inputs|];
    }
  }

  /**
   * What a new position is: the largest of what the clock allows, a thousand positions to the millisecond, of the next
   * number after the last position, and of what the store answers, if there is one.
   */
  lemma FreshExactly(s: Session, e: Event, now: int, store: Answers)
    requires Inv(s) && Fresh(s, e, store)
    ensures var n := PositionIn(s, e, now, store).1.renderSequence;
            && n.Some? && n.value >= ToNumber(now * 1000) && n.value >= ToNumber(s.last + 1)
            && (store.position.Some? ==> n.value >= ToNumber(store.position.value))
            && (|| n.value == ToNumber(now * 1000) || n.value == ToNumber(s.last + 1)
                || (store.position.Some? && n.value == ToNumber(store.position.value)))
  {
    IdentifyKeeps(s, e, store);
    PositionInIs(s, e, now, store);
    hide Identify, UpdateLifecycle, SegmentKey, ToNumber, Inv, Settled, ValidMap;
  }

  /** An event without a turn, an output part or a tool; it brings a position or takes the next one. */
  function Notice(position: Option<int>): Input {
    Input(Event("s", PiEvent, None, None, "", None, None, None, position, "", None, ""), 0, NO_STORE)
  }

  lemma NoticeIs(s: Session, position: Option<int>)
    requires Usable(s)
    ensures var n := if Valid(position) then position.value else NextSequence(s, 0, NO_STORE);
            PositionIn(s, Notice(position).event, 0, NO_STORE)
            == (s.(last := Max(s.last, n)), Notice(position).event.(renderSequence := Some(n)))
  {
    hide NextSequence, ValidMap, ToNumber, IsNumber, Trim, Digits;
    var e := Notice(position).event;
    assert Identify(s, e, NO_STORE) == (s, e);
    hide Identify;
    assert SegmentKey(e, s.activeEventId) == None;
  }

  /**
   * A position of 2^53 - 1 is accepted from an event. The two positions given out next are then the same: one more
   * than 2^53 rounds back to it.
   */
  lemma PositionsRepeat()
    ensures Run([Notice(Some(MAX_SAFE)), Notice(None), Notice(None)]).1 == [MAX_SAFE, TWO_53, TWO_53]
  {
    hide PositionIn, Inv, Run, Usable, ToNumber, IsNumber;
    var inputs := [Notice(Some(MAX_SAFE)), Notice(None), Notice(None)];
    RunNone();
    NewSessionOk();
    NotedIs([], Some(MAX_SAFE));
    assert [] + [Notice(Some(MAX_SAFE))] == inputs[..1] && inputs[..1] + [Notice(None)] == inputs[..2];
    assert inputs[..2] + [Notice(None)] == inputs;
    NotedIs(inputs[..1], None);
    NotedIs(inputs[..2], None);
    Exact(0);
    Exact(TWO_53);
    Successor(TWO_53);
  }

  lemma RunNone()
    ensures Run([]) == (NewSession(), [])
  {
  }

  lemma NotedIs(inputs: seq<Input>, position: Option<int>)
    ensures var (s, out) := Run(inputs);
            var n := if Valid(position) then position.value else NextSequence(s, 0, NO_STORE);
            Run(inputs + [Notice(position)]) == (s.(last := Max(s.last, n)), out + [n])
  {
    hide Run, Inv, PositionIn, Usable, NextSequence;
    RunInv(inputs);
    InvUsable(Run(inputs).0);
    NoticeIs(Run(inputs).0, position);
    RunMore(inputs, Notice(position));
  }

  lemma RunMore(inputs: seq<Input>, next: Input)
    requires Usable(Run(inputs).0)
    ensures var (s', e') := PositionIn(Run(inputs).0, next.event, next.now, next.store);
            Run(inputs + [next]) == (s', Run(inputs).1 + [if e'.renderSequence.Some? then e'.renderSequence.value else 0])
  {
    hide PositionIn, Usable;
    assert (inputs + [next])[..|inputs|] == inputs;
  }

  ghost function After(s: Session, inputs: seq<Input>): Session
    decreases |inputs|
  {
    if inputs == [] then s else After(Step(s, inputs[0]).0, inputs[1..])
  }

  /** The segment stays on record through a run. */
  ghost predicate Tracked(s: Session, inputs: seq<Input>, key: string)
    decreases |inputs|
  {
    key in s.positions.vals && (inputs != [] ==> Tracked(Step(s, inputs[0]).0, inputs[1..], key))
  }

  /** While a segment is on record, its position does not change ... */
  lemma {:induction false} PositionStable(s: Session, inputs: seq<Input>, key: string)
    requires Inv(s) && Tracked(s, inputs, key)
    ensures Inv(After(s, inputs)) && key in After(s, inputs).positions.vals
    ensures After(s, inputs).positions.vals[key] == s.positions.vals[key]
    decreases |inputs|
  {
    hide Inv, PositionIn;
    if inputs != [] {
      var i := inputs[0];
      InvUsable(s);
      PositionInKeeps(s, i.event, i.now, i.store);
      PositionStable(Step(s, i).0, inputs[1..], key);
    }
  }

  /** ... and every event of the segment gets it, unless it brings its own. */
  lemma SegmentShares(s: Session, inputs: seq<Input>, key: string, e: Event, now: int, store: Answers)
    requires Inv(s) && Tracked(s, inputs, key)
    requires Usable(After(s, inputs)) && KeyOf(After(s, inputs), e, store) == Some(key) && !Valid(e.renderSequence)
    ensures PositionIn(After(s, inputs), e, now, store).1.renderSequence == Some(s.positions.vals[key])
  {
    hide Inv, PositionIn, Tracked, After;
    PositionStable(s, inputs, key);
    PositionInKeeps(After(s, inputs), e, now, store);
  }

  /** An active segment is always on record, so it is never forgotten; of the completed ones, 1024 are kept. */
  lemma ActiveIsTracked(inputs: seq<Input>)
    ensures var s := Run(inputs).0;
            && (forall k <- s.active :: k in s.positions.vals && k !in s.completed)
            && (forall k <- s.completed :: k in s.positions.vals) && |s.completed| <= LIMIT
  {
    RunInv(inputs);
    hide Run;
  }

  // ----- Replays -----

  /** An event that carries all that positioning gives: it has been through a sequencer before. */
  predicate Positioned(e: Event) {
    && Given(e.eventId) && Valid(e.renderSequence)
    && (PartKindOf(e.kind).Some? ==> Valid(e.partIndex))
    && (IsTool(e.kind) && Given(e.toolCallId) ==> Valid(e.ordinal))
  }

  /** Whatever state and store another sequencer has, it gives a positioned event back as it came. */
  lemma ReplayUnchanged(s: Session, e: Event, now: int, store: Answers)
    requires Usable(s) && Positioned(e)
    ensures PositionIn(s, e, now, store).1 == e
  {
    var s1 := if e.kind.MessageStarted? && Given(e.eventId) then s.(activeEventId := e.eventId) else s;
    ReplayedPart(s1, e, store);
    var (s2, e2) := PositionPart(s1, e, store);
    PositionPartKeeps(s1, e, store);
    ReplayedTool(s2, e, store);
    hide PositionPart, PositionTool, SegmentKey, UpdateLifecycle, NextSequence;
  }

  lemma ReplayedPart(s: Session, e: Event, store: Answers)
    requires Usable(s) && Positioned(e)
    ensures PositionPart(s, e, store).1 == e
  {
    hide Trim, RecordPart, ChoosePartIndex, PartKey, ValidMap;
  }

  lemma ReplayedTool(s: Session, e: Event, store: Answers)
    requires Usable(s) && Positioned(e)
    ensures PositionTool(s, e, store).1 == e
  {
    hide Trim, MarkInvocation, ToolKey, ValidMap;
  }

  /** Numbers past 2^53 are no longer taken for positions when they come back. */
  predicate WithinSafeRange(e: Event) {
    && e.renderSequence.Some? && e.renderSequence.value <= MAX_SAFE
    && (e.partIndex.Some? ==> 0 <= e.partIndex.value <= MAX_SAFE)
    && (e.ordinal.Some? ==> 0 <= e.ordinal.value <= MAX_SAFE)
  }

  /** What a sequencer gives out for an event with an id is positioned, as long as the numbers stay exact. */
  lemma PositionedIs(s: Session, e: Event, now: int, store: Answers)
    requires Inv(s) && Given(e.eventId) && WithinSafeRange(PositionIn(s, e, now, store).1)
    ensures Positioned(PositionIn(s, e, now, store).1)
  {
    hide PositionPart, PositionTool, SegmentKey, UpdateLifecycle, NextSequence, Advances, ValidMap, IsNumber, SegmentsOk,
      Place;
    var s1 := if e.kind.MessageStarted? && Given(e.eventId) then s.(activeEventId := e.eventId) else s;
    var (s2, e2) := PositionPart(s1, e, store);
    PositionPartKeeps(s1, e, store);
    IdentifyKeeps(s, e, store);
    GivenPart(s1, e, store);
    GivenOrdinal(s2, e2, store);
    var (s3, e3) := Identify(s, e, store);
    PositionToolKeeps(s2, e2, store);
    PlacePositions(s3, e3, now, store);
    hide Inv, PositionsOk;
  }

  lemma GivenPart(s: Session, e: Event, store: Answers)
    requires Usable(s) && Given(e.eventId)
    ensures PartKindOf(e.kind).Some? ==> PositionPart(s, e, store).1.partIndex.Some?
  {
    hide Trim, RecordPart, ChoosePartIndex, PartKey, ValidMap;
  }

  lemma GivenOrdinal(s: Session, e: Event, store: Answers)
    requires Usable(s)
    ensures IsTool(e.kind) && Given(e.toolCallId) ==> PositionTool(s, e, store).1.ordinal.Some?
  {
    hide Trim, AttachInvocation, MarkInvocation, ToolKey, ValidMap;
  }

  /** Positioning twice, in any two sequencers, is positioning once. */
  lemma PositionTwice(s: Session, e: Event, now: int, store: Answers, other: Session, later: int, otherStore: Answers)
    requires Inv(s) && Usable(s) && Given(e.eventId) && Usable(other)
    requires WithinSafeRange(PositionIn(s, e, now, store).1)
    ensures PositionIn(other, PositionIn(s, e, now, store).1, later, otherStore).1 == PositionIn(s, e, now, store).1
  {
    PositionedIs(s, e, now, store);
    hide PositionIn, Inv, Usable, Positioned;
    ReplayUnchanged(other, PositionIn(s, e, now, store).1, later, otherStore);
  }

  // ----- Output parts over runs -----

  ghost predicate Unpositioned(inputs: seq<Input>) {
    forall i :: 0 <= i < |inputs| ==> !Valid(inputs[i].event.renderSequence) && inputs[i].store == NO_STORE
  }

  lemma RunStep(inputs: seq<Input>)
    requires inputs != []
    ensures Usable(Run(inputs[..|inputs| - 1]).0)
    ensures var last := inputs[|inputs| - 1];
            Run(inputs).0 == PositionIn(Run(inputs[..|inputs| - 1]).0, last.event, last.now, last.store).0
  {
    hide PositionIn, Usable, Inv;
    RunInv(inputs[..|inputs| - 1]);
    InvUsable(Run(inputs[..|inputs| - 1]).0);
  }

  lemma UsableMaps(s: Session)
    requires Usable(s)
    ensures ValidMap(s.parts) && ValidMap(s.tools)
  {
  }

  /** Every turn and kind has at most one open part at any time, and no index twice. */
  lemma {:induction false} OneOpenPart(inputs: seq<Input>)
    requires Unpositioned(inputs)
    ensures PartsOk(Run(inputs).0.parts)
  {
    if inputs == [] {
      hide CounterOk;
    } else {
      hide PositionIn, PartsOk, Inv, Usable, Valid;
      var s := Run(inputs[..|inputs| - 1]).0;
      var last := inputs[|inputs| - 1];
      RunInv(inputs[..|inputs| - 1]);
      RunStep(inputs);
      OneOpenPart(inputs[..|inputs| - 1]);
      UsableMaps(s);
      assert !Valid(last.event.renderSequence) && last.store == NO_STORE;
      hide *;
      PositionKeepsParts(s, last.event, last.now);
    }
  }

  /** The invocations of a reused tool call id are numbered in the order they began. */
  lemma {:induction false} OrdinalsInOrder(inputs: seq<Input>)
    requires forall i :: 0 <= i < |inputs| ==> !Valid(inputs[i].event.ordinal) && inputs[i].store == NO_STORE
    ensures ToolsOk(Run(inputs).0.tools)
  {
    if inputs != [] {
      hide PositionIn, ToolsOk, Inv, Usable;
      var s := Run(inputs[..|inputs| - 1]).0;
      var last := inputs[|inputs| - 1];
      RunInv(inputs[..|inputs| - 1]);
      RunStep(inputs);
      OrdinalsInOrder(inputs[..|inputs| - 1]);
      UsableMaps(s);
      hide *;
      PositionKeepsTools(s, last.event, last.now);
    }
  }

  // ----- Sessions -----

  lemma {:induction false} EvictableAre(keys: seq<string>, vals: map<string, Session>, k: string)
    ensures k in EvictableKeys(keys, vals) <==> k in keys && k in vals && Evictable(vals[k])
  {
    if keys != [] {
      EvictableAre(keys[1..], vals, k);
    }
  }

  lemma {:induction false} DropKeeps(m: JsMap<string, Session>, removable: seq<string>)
    requires ValidMap(m)
    ensures var m' := DropSessions(m, removable);
            ValidMap(m') && forall k :: k in m.vals && k !in removable ==> k in m'.vals && m'.vals[k] == m.vals[k]
    ensures var m' := DropSessions(m, removable);
            forall k <- m'.vals :: k in m.vals && m'.vals[k] == m.vals[k]
    decreases |removable|
  {
    hide ValidMap;
    if |removable| > LIMIT {
      DeleteValid(m, removable[0]);
      DropKeeps(Delete(m, removable[0]), removable[1..]);
    }
  }

  /** No session with a turn or a segment in progress is evicted, and none is changed by the eviction. */
  lemma ActiveSessionsStay(m: JsMap<string, Session>, k: string)
    requires ValidMap(m) && k in m.vals && (m.vals[k].activeEventId.Some? || m.vals[k].active != {})
    ensures k in TrimSessions(m).vals && TrimSessions(m).vals[k] == m.vals[k]
  {
    hide ValidMap;
    DropKeeps(m, EvictableKeys(m.keys, m.vals));
    EvictableAre(m.keys, m.vals, k);
  }

  lemma {:induction false} EvictableAfterDelete(keys: seq<string>, vals: map<string, Session>, k: string)
    requires Distinct(keys) && k in keys
    ensures EvictableKeys(RemoveKey(keys, k), vals - {k}) == RemoveKey(EvictableKeys(keys, vals), k)
  {
    hide Evictable, RemoveKey;
    assert keys == [keys[0]] + keys[1..];
    if keys[0] == k {
      RemoveFirst(keys);
      EvictableElsewhere(keys[1..], vals, k);
      var rest := EvictableKeys(keys[1..], vals);
      EvictableAre(keys[1..], vals, k);
      RemoveFirst([k] + rest);
      assert ([k] + rest)[1..] == rest && ([k] + rest)[0] == k && [] + rest == rest;
      RemoveNone(rest, k);
    } else {
      EvictableAfterDelete(keys[1..], vals, k);
      RemoveLater(keys[0], keys[1..], k);
      var rest := EvictableKeys(keys[1..], vals);
      RemoveLater(keys[0], rest, k);
      assert RemoveKey(keys, k)[1..] == RemoveKey(keys[1..], k) && RemoveKey(keys, k)[0] == keys[0];
      assert keys[0] in vals - {k} <==> keys[0] in vals;
      assert EvictableKeys(keys, vals)
          == if keys[0] in vals && Evictable(vals[keys[0]]) then [keys[0]] + rest else [] + rest;
      assert [] + rest == rest;
    }
  }

  lemma RemoveFirst(keys: seq<string>)
    requires keys != []
    ensures RemoveKey(keys, keys[0]) == keys[1..]
  {
  }

  lemma RemoveNone(keys: seq<string>, k: string)
    requires k !in keys
    ensures RemoveKey(keys, k) == keys
  {
  }

  lemma IndexLater(x: string, keys: seq<string>, k: string)
    requires x != k
    ensures IndexOf([x] + keys, k) == if IndexOf(keys, k) < 0 then -1 else IndexOf(keys, k) + 1
  {
    assert ([x] + keys)[1..] == keys;
  }

  lemma CutLater(x: string, keys: seq<string>, i: nat)
    requires i < |keys|
    ensures ([x] + keys)[..i + 1] + ([x] + keys)[i + 2..] == [x] + (keys[..i] + keys[i + 1..])
  {
    var all := [x] + keys;
    assert all[..i + 1] == [x] + keys[..i];
    assert all[i + 2..] == keys[i + 1..];
  }

  lemma RemoveLater(x: string, keys: seq<string>, k: string)
    requires x != k
    ensures RemoveKey([x] + keys, k) == [x] + RemoveKey(keys, k)
  {
    var all := [x] + keys;
    IndexLater(x, keys, k);
    hide IndexOf;
    var i := IndexOf(keys, k);
    if i >= 0 {
      CutLater(x, keys, i);
    }
  }

  lemma {:induction false} EvictableElsewhere(keys: seq<string>, vals: map<string, Session>, k: string)
    requires k !in keys
    ensures EvictableKeys(keys, vals - {k}) == EvictableKeys(keys, vals)
  {
    hide Evictable;
    if keys != [] {
      EvictableElsewhere(keys[1..], vals, k);
    }
  }

  /** After trimming at most 1024 sessions could still be evicted. */
  lemma {:induction false} DropBounds(m: JsMap<string, Session>, removable: seq<string>)
    requires ValidMap(m) && removable == EvictableKeys(m.keys, m.vals)
    ensures var m' := DropSessions(m, removable); |EvictableKeys(m'.keys, m'.vals)| <= LIMIT
    decreases |removable|
  {
    if |removable| > LIMIT {
      var k := removable[0];
      EvictableAre(m.keys, m.vals, k);
      EvictableAfterDelete(m.keys, m.vals, k);
      DeleteValid(m, k);
      hide ValidMap, EvictableKeys;
      assert RemoveKey(removable, k) == removable[1..];
      DropBounds(Delete(m, k), removable[1..]);
    }
  }

  /** The sessions without a turn or a segment in progress. */
  function IdleSessions(m: JsMap<string, Session>): set<string> {
    set k | k in m.vals && m.vals[k].activeEventId.None? && m.vals[k].active == {}
  }

  /** Of those at most 1024 are kept, and as long as there are no more than that, all of them. */
  lemma IdleSessionsBounded(m: JsMap<string, Session>)
    requires ValidMap(m)
    ensures |IdleSessions(TrimSessions(m))| <= 1024
    ensures |IdleSessions(m)| <= 1024 ==> TrimSessions(m) == m
  {
    var removable := EvictableKeys(m.keys, m.vals);
    DropBounds(m, removable);
    DropKeeps(m, removable);
    IdleCount(m);
    hide DropSessions, EvictableKeys, ValidMap;
    IdleCount(TrimSessions(m));
    NoneDropped(m, removable);
  }

  lemma NoneDropped(m: JsMap<string, Session>, removable: seq<string>)
    ensures |removable| <= LIMIT ==> DropSessions(m, removable) == m
  {
  }

  lemma IdleCount(m: JsMap<string, Session>)
    requires ValidMap(m)
    ensures |IdleSessions(m)| == |EvictableKeys(m.keys, m.vals)|
  {
    var r := EvictableKeys(m.keys, m.vals);
    EvictableDistinct(m.keys, m.vals);
    forall k ensures k in IdleSessions(m) <==> k in r {
      EvictableAre(m.keys, m.vals, k);
    }
    DistinctCount(r, IdleSessions(m));
  }

  lemma {:induction false} DistinctCount(r: seq<string>, ks: set<string>)
    requires Distinct(r) && forall k :: k in ks <==> k in r
    ensures |ks| == |r|
  {
    if r == [] {
      assert ks == {};
    } else {
      assert forall k :: k in r <==> k == r[0] || k in r[1..];
      DistinctCount(r[1..], ks - {r[0]});
      assert ks == ks - {r[0]} + {r[0]};
    }
  }

  lemma {:induction false} DropKeepsNewest(m: JsMap<string, Session>, removable: seq<string>, k: string)
    requires ValidMap(m) && Distinct(removable) && k in m.vals && k in removable[Cut(removable)..]
    ensures var m' := DropSessions(m, removable); k in m'.vals && m'.vals[k] == m.vals[k]
    decreases |removable|
  {
    if |removable| > LIMIT {
      assert removable[0] != k;
      DeleteValid(m, removable[0]);
      assert removable[1..][Cut(removable[1..])..] == removable[Cut(removable)..];
      hide ValidMap;
      DropKeepsNewest(Delete(m, removable[0]), removable[1..], k);
    }
  }

  /** How many of the evictable sessions go. */
  function Cut(removable: seq<string>): (c: nat)
    ensures c <= |removable|
  {
    if |removable| > LIMIT then |removable| - LIMIT else 0
  }

  lemma {:induction false} EvictableDistinct(keys: seq<string>, vals: map<string, Session>)
    requires Distinct(keys)
    ensures Distinct(EvictableKeys(keys, vals))
  {
    hide Evictable;
    if keys != [] {
      EvictableDistinct(keys[1..], vals);
      EvictableAre(keys[1..], vals, keys[0]);
    }
  }

  lemma {:induction false} EvictableLast(keys: seq<string>, vals: map<string, Session>, k: string)
    requires keys != [] && keys[|keys| - 1] == k && k in vals && Evictable(vals[k])
    ensures var r := EvictableKeys(keys, vals); r != [] && r[|r| - 1] == k
  {
    hide Evictable;
    if |keys| == 1 {
      assert EvictableKeys(keys[1..], vals) == [];
    } else {
      EvictableLast(keys[1..], vals, k);
    }
  }

  /** The session of the event just positioned is never the one to go. */
  lemma NewestSessionStays(m: JsMap<string, Session>, k: string)
    requires ValidMap(m) && m.keys != [] && m.keys[|m.keys| - 1] == k
    ensures k in TrimSessions(m).vals && TrimSessions(m).vals[k] == m.vals[k]
  {
    assert k in m.keys;
    hide EvictableKeys, DropSessions, Evictable;
    if Evictable(m.vals[k]) {
      var r := EvictableKeys(m.keys, m.vals);
      EvictableLast(m.keys, m.vals, k);
      EvictableDistinct(m.keys, m.vals);
      hide ValidMap, Distinct;
      assert r[Cut(r)..][|r| - 1 - Cut(r)] == k;
      DropKeepsNewest(m, r, k);
    } else {
      ActiveSessionsStay(m, k);
    }
  }
}
