/** `OutputRenderSequencer` of `src/core/output-render-sequence.ts`: the state of one session and what
    positioning an event does to it. */
module SequencerSpec {
  import opened JsMap
  import opened JsNumber
  import opened RecentLists

  datatype Option<+T> = None | Some(value: T)

  datatype Kind =
    | MessageQueued | MessageSteered | MessageStarted | MessageFinished
    | AssistantDelta | AssistantMessage | ThinkingStarted | ThinkingDelta | ThinkingFinished
    | ToolCall | ToolStarted | ToolUpdated | ToolFinished | SubagentSession
    | AssistantUsage | CompactionStart | CompactionEnd
    | ApprovalRequested | ApprovalResolved | UserInputRequested | UserInputResolved
    | ExecutionResult | SessionError | PiEvent

  /**
   * `partIndex` is the assistant, thinking, usage or compaction index, whichever the kind has; `tag` is the
   * request id or action, `identity` and `callFingerprint` are hashes of the payload.
   */
  datatype Event = Event(
    session: string, kind: Kind, eventId: Option<string>, toolCallId: Option<string>, tag: string,
    partIndex: Option<int>, contentIndex: Option<int>, ordinal: Option<int>, renderSequence: Option<int>,
    identity: string, callFingerprint: Option<string>, payload: string)

  datatype Part = Part(index: int, closed: bool, identity: string)

  datatype Invocation =
    Invocation(ordinal: int, seen: set<Kind>, closed: bool, persisted: bool, callFingerprint: Option<string>)

  /** `completed` is a JavaScript `Set`, oldest first. */
  datatype Session = Session(
    positions: JsMap<string, int>, segmentEvents: map<string, Option<string>>, active: set<string>,
    completed: seq<string>, activeEventId: Option<string>, tools: Lists<Invocation>, parts: Lists<Part>, last: int)

  /** What a durable store answers to this event's claims, where there is a store that takes them. */
  datatype Answers = Answers(position: Option<int>, part: Option<int>, tool: Option<int>)

  const NO_STORE := Answers(None, None, None)

  const SLOTS := 1000
  const LIMIT := 1024
  const MAX_SAFE := TWO_53 - 1

  function NewSession(): Session {
    Session(EmptyMap(), map[], {}, [], None, EmptyMap(), EmptyMap(), 0)
  }

  function Max(a: int, b: int): int {
    if a > b then a else b
  }

  function Or<T>(a: Option<T>, b: Option<T>): Option<T> {
    if a.Some? then a else b
  }

  predicate Valid(n: Option<int>) {
    n.Some? && 0 <= n.value <= MAX_SAFE
  }

  lemma ValidIsNumber(n: Option<int>)
    ensures Valid(n) ==> IsNumber(n.value)
  {
    if Valid(n) {
      Exact(n.value);
    }
  }

  /** An id that JavaScript takes for true. */
  predicate Given(id: Option<string>) {
    id.Some? && id.value != ""
  }

  predicate IsBoundary(k: Kind) {
    k.MessageFinished? || k.SessionError?
  }

  // ----- Output parts -----

  datatype PartKind = AssistantPart | ThinkingPart | UsagePart | CompactionPart

  function PartKindOf(k: Kind): Option<PartKind> {
    match k
    case AssistantDelta | AssistantMessage => Some(AssistantPart)
    case ThinkingStarted | ThinkingDelta | ThinkingFinished => Some(ThinkingPart)
    case AssistantUsage => Some(UsagePart)
    case CompactionStart | CompactionEnd => Some(CompactionPart)
    case _ => None
  }

  predicate PartEnds(k: Kind) {
    k.AssistantMessage? || k.ThinkingFinished? || k.AssistantUsage? || k.CompactionEnd?
  }

  /** The index an event proposes: its own, else the content index where the kind has one, else 0. */
  function PartNumber(e: Event): int {
    var own := if e.kind.AssistantUsage? || e.kind.CompactionStart? || e.kind.CompactionEnd? then e.partIndex
               else Or(e.partIndex, e.contentIndex);
    if own.Some? then ToNumber(own.value) else 0
  }

  function PartKey(eventId: string, k: PartKind): string {
    (match k
     case AssistantPart => "assistant:"
     case ThinkingPart => "thinking:"
     case UsagePart => "usage:"
     case CompactionPart => "compaction:") + eventId
  }

  const PartClosed: Part -> bool := (p: Part) => p.closed

  /** The position of the part with an index, or -1. */
  function FindPart(parts: seq<Part>, index: int): (i: int)
    ensures -1 <= i < |parts|
    ensures i >= 0 ==> parts[i].index == index
    ensures i < 0 ==> forall p <- parts :: p.index != index
  {
    if parts == [] then -1
    else if parts[0].index == index then 0
    else
      var rest := FindPart(parts[1..], index);
      if rest < 0 then -1 else rest + 1
  }

  /** The last part that is not closed, or -1. */
  function LastOpen(parts: seq<Part>): (i: int)
    ensures -1 <= i < |parts|
    ensures i >= 0 ==> !parts[i].closed && forall j :: i < j < |parts| ==> parts[j].closed
    ensures i < 0 ==> forall p <- parts :: p.closed
  {
    if parts == [] then -1
    else if !parts[|parts| - 1].closed then |parts| - 1
    else LastOpen(parts[..|parts| - 1])
  }

  function HighestIndex(parts: seq<Part>): (m: int)
    ensures m >= -1 && forall p <- parts :: p.index <= m
  {
    if parts == [] then -1 else Max(parts[0].index, HighestIndex(parts[1..]))
  }

  function RecordPart(parts: seq<Part>, index: int, terminal: bool, identity: string): seq<Part> {
    var i := FindPart(parts, index);
    if i < 0 then parts + [Part(index, terminal, identity)]
    else if terminal then parts[i := parts[i].(closed := true, identity := identity)]
    else parts
  }

  /** The event keeps the index it came with: it is a replay, or names a part it may belong to. */
  predicate KeepsPartIndex(parts: seq<Part>, e: Event) {
    Valid(e.partIndex) &&
    (Valid(e.renderSequence)
     || (var i := FindPart(parts, e.partIndex.value); i >= 0 && (!parts[i].closed || parts[i].identity == e.identity)))
  }

  /** The index given to an event that does not keep its own. */
  function ChoosePartIndex(parts: seq<Part>, e: Event, store: Answers): int {
    var i := LastOpen(parts);
    if i >= 0 then parts[i].index
    else if store.part.Some? then store.part.value
    else if PartNumber(e) > HighestIndex(parts) then PartNumber(e)
    else ToNumber(HighestIndex(parts) + 1)
  }

  /** The turn an output part belongs to. */
  function PartTurn(s: Session, e: Event): Option<string> {
    if PartKindOf(e.kind).None? then None
    else
      var id := Or(e.eventId, s.activeEventId);
      if Given(id) then id else None
  }

  function PositionPart(s: Session, e: Event, store: Answers): (Session, Event)
    requires ValidMap(s.parts)
  {
    var turn := PartTurn(s, e);
    if turn.None? then (s, e)
    else
      var key := PartKey(turn.value, PartKindOf(e.kind).value);
      var parts := ListOf(s.parts, key);
      var index := if KeepsPartIndex(parts, e) then e.partIndex.value else ChoosePartIndex(parts, e, store);
      var recorded := RecordPart(parts, index, PartEnds(e.kind), e.identity);
      SetValid(s.parts, key, recorded);
      (s.(parts := Trim(Set(s.parts, key, recorded), PartClosed, LIMIT)), e.(partIndex := Some(index)))
  }

  // ----- Tool invocations -----

  predicate IsTool(k: Kind) {
    k.ToolCall? || k.ToolStarted? || k.ToolUpdated? || k.ToolFinished? || k.SubagentSession?
  }

  /** Stands for the JSON text of the pair: the length keeps the two apart. */
  function ToolKey(eventId: Option<string>, toolCallId: string): string {
    var turn := if eventId.Some? then eventId.value else "unscoped";
    Digits(|turn|) + "," + turn + toolCallId
  }

  const InvocationClosed: Invocation -> bool := (v: Invocation) => v.closed

  function FindOrdinal(vs: seq<Invocation>, n: int): (i: int)
    ensures -1 <= i < |vs|
    ensures i >= 0 ==> vs[i].ordinal == n
  {
    if vs == [] then -1
    else if vs[0].ordinal == n then 0
    else
      var rest := FindOrdinal(vs[1..], n);
      if rest < 0 then -1 else rest + 1
  }

  function HighestOrdinal(vs: seq<Invocation>): (m: int)
    ensures m >= -1 && forall v <- vs :: v.ordinal <= m
  {
    if vs == [] then -1 else Max(vs[0].ordinal, HighestOrdinal(vs[1..]))
  }

  /** `toolCallStartsNewInvocation`. */
  predicate CallStartsNew(v: Invocation, fingerprint: Option<string>) {
    if ToolCall !in v.seen then v.closed && v.persisted
    else if v.closed then true
    else if v.callFingerprint.None? then false
    else fingerprint.None? || v.callFingerprint != fingerprint
  }

  predicate StartsNew(vs: seq<Invocation>, e: Event, scoped: bool) {
    vs == []
    || (e.kind.ToolCall? && CallStartsNew(vs[|vs| - 1], if scoped then e.callFingerprint else None))
    || (e.kind.ToolStarted? && vs[|vs| - 1].closed && ToolStarted in vs[|vs| - 1].seen)
  }

  /** The invocations with the one of this event marked, and which it is. */
  function AttachInvocation(vs: seq<Invocation>, e: Event, scoped: bool, store: Answers): (r: (seq<Invocation>, int))
    ensures 0 <= r.1 < |r.0|
  {
    if Valid(e.ordinal) then
      var i := FindOrdinal(vs, e.ordinal.value);
      if i >= 0 then (vs[i := vs[i].(persisted := true)], i)
      else (vs + [Invocation(e.ordinal.value, {}, false, true, None)], |vs|)
    else if StartsNew(vs, e, scoped) then
      var n := if scoped && store.tool.Some? then store.tool.value else ToNumber(HighestOrdinal(vs) + 1);
      (vs + [Invocation(n, {}, false, false, None)], |vs|)
    else (vs, |vs| - 1)
  }

  function MarkInvocation(v: Invocation, e: Event, scoped: bool): Invocation {
    var v1 := v.(seen := v.seen + {e.kind});
    var v2 := if e.kind.ToolCall? && scoped && e.callFingerprint.Some? then v1.(callFingerprint := e.callFingerprint) else v1;
    if e.kind.ToolFinished? then v2.(closed := true) else v2
  }

  function PositionTool(s: Session, e: Event, store: Answers): (Session, Event)
    requires ValidMap(s.tools)
  {
    if !IsTool(e.kind) || !Given(e.toolCallId) then (s, e)
    else
      var eventId := Or(e.eventId, s.activeEventId);
      var key := ToolKey(eventId, e.toolCallId.value);
      var (vs, i) := AttachInvocation(ListOf(s.tools, key), e, Given(eventId), store);
      var marked := vs[i := MarkInvocation(vs[i], e, Given(eventId))];
      SetValid(s.tools, key, marked);
      (s.(tools := Trim(Set(s.tools, key, marked), InvocationClosed, LIMIT)),
       e.(eventId := if Given(e.eventId) then e.eventId else eventId, ordinal := Some(vs[i].ordinal)))
  }

  // ----- Segments -----

  function Digits(n: nat): string {
    (if n < 10 then "" else Digits(n / 10)) + [(48 + n % 10) as char]
  }

  function Decimal(n: int): string {
    if n < 0 then "-" + Digits(-n) else Digits(n)
  }

  /** `outputRenderSegmentKey`. */
  function SegmentKey(e: Event, activeEventId: Option<string>): Option<string> {
    var id := if Given(e.eventId) then e.eventId else activeEventId;
    var turn := if id.Some? then id.value else "active";
    var tool := (if e.toolCallId.Some? then e.toolCallId.value else "undefined") + ":"
                + Decimal(if e.ordinal.Some? then e.ordinal.value else 0);
    match e.kind
    case MessageQueued | MessageSteered => if Given(id) then Some("user:" + turn) else None
    case MessageStarted | MessageFinished => if Given(id) then Some("turn:" + turn) else None
    case AssistantDelta | AssistantMessage => Some("assistant:" + turn + ":" + Decimal(PartNumber(e)))
    case ThinkingStarted | ThinkingDelta | ThinkingFinished => Some("reasoning:" + turn + ":" + Decimal(PartNumber(e)))
    case ToolCall | ToolStarted | ToolUpdated | ToolFinished => Some("tool:" + turn + ":" + tool)
    case SubagentSession => if Given(e.toolCallId) then Some("tool:" + turn + ":" + tool) else None
    case CompactionStart | CompactionEnd => Some("compaction:" + turn + ":" + Decimal(PartNumber(e)))
    case ApprovalRequested | ApprovalResolved => Some("approval:" + turn + ":" + e.tag)
    case UserInputRequested | UserInputResolved => Some("user-input:" + turn + ":" + e.tag)
    case AssistantUsage => Some("usage:" + turn + ":" + Decimal(PartNumber(e)))
    case SessionError => Some("error:" + turn)
    case ExecutionResult => Some("execution:" + if id.Some? then id.value else e.tag)
    case PiEvent => None
  }

  predicate RemainsActive(k: Kind) {
    k.MessageStarted? || k.AssistantDelta? || k.ThinkingStarted? || k.ThinkingDelta? || k.ToolCall? || k.ToolStarted?
    || k.ToolUpdated?
  }

  predicate CompletesWith(k: Kind) {
    k.AssistantMessage? || k.ThinkingFinished? || k.ToolFinished? || k.ExecutionResult? || k.CompactionEnd?
    || k.ApprovalResolved? || k.UserInputResolved?
  }

  /** The oldest completed segments beyond the limit are forgotten, with their positions. */
  function ForgetOldest(s: Session): Session
    decreases |s.completed|
  {
    if |s.completed| <= LIMIT then s
    else
      var oldest := s.completed[0];
      var s1 := s.(completed := s.completed[1..]);
      ForgetOldest(if oldest in s.active then s1
                   else s1.(positions := Delete(s.positions, oldest), segmentEvents := s.segmentEvents - {oldest}))
  }

  function CompleteSegment(s: Session, key: string): Session {
    ForgetOldest(s.(active := s.active - {key}, completed := RemoveKey(s.completed, key) + [key]))
  }

  /** The segments of a turn that ends; an error without a turn ends them all. */
  predicate Ends(s: Session, e: Event, key: string) {
    if e.kind.SessionError? && !Given(e.eventId) then true
    else Given(e.eventId) && key in s.segmentEvents && s.segmentEvents[key] == e.eventId
  }

  function CompleteAll(s: Session, e: Event, keys: seq<string>): Session
    decreases |keys|
  {
    if keys == [] then s
    else CompleteAll(if keys[0] in s.positions.vals && Ends(s, e, keys[0]) then CompleteSegment(s, keys[0]) else s, e, keys[1..])
  }

  function UpdateLifecycle(s: Session, e: Event, key: Option<string>, turn: Option<string>): Session {
    var s1 := if key.Some? && key.value !in s.segmentEvents then s.(segmentEvents := s.segmentEvents[key.value := turn]) else s;
    if IsBoundary(e.kind) then CompleteAll(s1, e, s1.positions.keys)
    else if key.None? then s1
    else if CompletesWith(e.kind) then CompleteSegment(s1, key.value)
    else if RemainsActive(e.kind) then
      s1.(completed := RemoveKey(s1.completed, key.value), active := s1.active + {key.value})
    else s1
  }

  // ----- One event -----

  /** `nextSequence`, where a store never answers less than the minimum it is asked for. */
  function NextSequence(s: Session, now: int, store: Answers): int {
    var minimum := Max(ToNumber(now * SLOTS), ToNumber(s.last + 1));
    if store.position.Some? then Max(minimum, ToNumber(store.position.value)) else minimum
  }

  /** The clock or the store is past the last position, or there is a next number for it. */
  predicate Advances(last: int, now: int, store: Answers) {
    Increments(last) || ToNumber(now * SLOTS) > last
    || (store.position.Some? && ToNumber(store.position.value) > last)
  }

  predicate ClearsTurn(s: Session, e: Event) {
    IsBoundary(e.kind)
    && ((Given(e.eventId) && s.activeEventId == e.eventId) || (e.kind.SessionError? && !Given(e.eventId)))
  }

  /** The event has its part and tool identity; it still needs its position. */
  function Place(s: Session, e: Event, now: int, store: Answers): (Session, Event) {
    var key := SegmentKey(e, s.activeEventId);
    var n := if Valid(e.renderSequence) then e.renderSequence.value
             else if key.Some? && key.value in s.positions.vals then s.positions.vals[key.value]
             else NextSequence(s, now, store);
    var s1 := s.(last := Max(s.last, n),
                 positions := if key.Some? && key.value !in s.positions.vals then Set(s.positions, key.value, n)
                              else s.positions);
    (s1, e.(renderSequence := Some(n)))
  }

  function Identify(s: Session, e: Event, store: Answers): (Session, Event)
    requires ValidMap(s.parts) && ValidMap(s.tools)
  {
    var s1 := if e.kind.MessageStarted? && Given(e.eventId) then s.(activeEventId := e.eventId) else s;
    var (s2, e2) := PositionPart(s1, e, store);
    PositionTool(s2, e2, store)
  }

  /** `position`, within the event's session. */
  function PositionIn(s: Session, e: Event, now: int, store: Answers): (Session, Event)
    requires ValidMap(s.parts) && ValidMap(s.tools)
  {
    var (s3, e3) := Identify(s, e, store);
    var key := SegmentKey(e3, s3.activeEventId);
    var (s4, e4) := Place(s3, e3, now, store);
    var s5 := if ClearsTurn(s4, e) then s4.(activeEventId := None) else s4;
    (UpdateLifecycle(s5, e4, key, if Given(e4.eventId) then e4.eventId else s5.activeEventId), e4)
  }

  // ----- All sessions -----

  predicate Evictable(s: Session) {
    s.activeEventId.None? && s.active == {}
  }

  function EvictableKeys(keys: seq<string>, vals: map<string, Session>): seq<string> {
    if keys == [] then []
    else (if keys[0] in vals && Evictable(vals[keys[0]]) then [keys[0]] else []) + EvictableKeys(keys[1..], vals)
  }

  function DropSessions(m: JsMap<string, Session>, removable: seq<string>): JsMap<string, Session>
    decreases |removable|
  {
    if |removable| <= LIMIT then m else DropSessions(Delete(m, removable[0]), removable[1..])
  }

  function TrimSessions(m: JsMap<string, Session>): JsMap<string, Session> {
    DropSessions(m, EvictableKeys(m.keys, m.vals))
  }

  /** The session of an event, moved to the end of the map. */
  function Touch(m: JsMap<string, Session>, id: string): JsMap<string, Session> {
    var s := GetOr(m, id, NewSession());
    Set(Delete(m, id), id, s)
  }

  ghost predicate Usable(s: Session) {
    ValidMap(s.parts) && ValidMap(s.tools)
  }

  function Position(m: JsMap<string, Session>, e: Event, now: int, store: Answers): (JsMap<string, Session>, Event)
    requires forall k <- m.vals :: Usable(m.vals[k])
  {
    var s := GetOr(m, e.session, NewSession());
    assert Usable(NewSession());
    assert e.session in m.vals ==> Usable(m.vals[e.session]);
    var (s', e') := PositionIn(s, e, now, store);
    (TrimSessions(Set(Touch(m, e.session), e.session, s')), e')
  }
}
