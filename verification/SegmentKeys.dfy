/** Which events share a segment. */
module SegmentKeys {
  // The texts that name segments and counters tell apart what they are to tell apart, up to ids that contain a colon.

  import opened JsMap
  import opened JsNumber
  import opened SequencerSpec
  import opened SequencerLaws
  import opened SequencerRuns

  /** The kinds of events that belong together. */
  datatype Group =
    | UserText | TurnMark | AssistantText | Reasoning | ToolUse | Compaction | Approval | Question | Usage | Problem
    | Execution

  /** What an event is about: `name` is a tool call or request id, `number` a part index or tool ordinal. */
  datatype Segment = Segment(group: Group, turn: string, name: string, number: int)

  function GroupOf(k: Kind): Option<Group> {
    match k
    case MessageQueued | MessageSteered => Some(UserText)
    case MessageStarted | MessageFinished => Some(TurnMark)
    case AssistantDelta | AssistantMessage => Some(AssistantText)
    case ThinkingStarted | ThinkingDelta | ThinkingFinished => Some(Reasoning)
    case ToolCall | ToolStarted | ToolUpdated | ToolFinished | SubagentSession => Some(ToolUse)
    case CompactionStart | CompactionEnd => Some(Compaction)
    case ApprovalRequested | ApprovalResolved => Some(Approval)
    case UserInputRequested | UserInputResolved => Some(Question)
    case AssistantUsage => Some(Usage)
    case SessionError => Some(Problem)
    case ExecutionResult => Some(Execution)
    case PiEvent => None
  }

  /** The turn of an event: its own, else the active one. */
  function TurnOf(e: Event, active: Option<string>): Option<string> {
    if Given(e.eventId) then e.eventId else active
  }

  /** The segment of an event, on its fields alone; some events without a turn or a tool call have none. */
  function SegmentOf(e: Event, active: Option<string>): Option<Segment> {
    var id := TurnOf(e, active);
    var turn := if id.Some? then id.value else "active";
    match GroupOf(e.kind)
    case None => None
    case Some(g) =>
      match g
      case UserText | TurnMark => if Given(id) then Some(Segment(g, turn, "", 0)) else None
      case AssistantText | Reasoning | Usage | Compaction => Some(Segment(g, turn, "", PartNumber(e)))
      case ToolUse =>
        if e.kind.SubagentSession? && !Given(e.toolCallId) then None
        else Some(Segment(g, turn, if e.toolCallId.Some? then e.toolCallId.value else "undefined",
                          if e.ordinal.Some? then e.ordinal.value else 0))
      case Approval | Question => Some(Segment(g, turn, e.tag, 0))
      case Problem => Some(Segment(g, turn, "", 0))
      case Execution => Some(Segment(g, if id.Some? then id.value else e.tag, "", 0))
  }

  /** The same segment, or two that only a colon in an id confuses. */
  predicate Alike(a: Segment, b: Segment) {
    && a.group == b.group && a.number == b.number
    && if a.group in {ToolUse, Approval, Question} then a.turn + ":" + a.name == b.turn + ":" + b.name
       else a.turn == b.turn
  }

  // ----- Numbers in texts -----

  predicate Plain(s: string) {
    ':' !in s
  }

  lemma {:induction false} DigitsPlain(n: nat)
    ensures Digits(n) != [] && forall c <- Digits(n) :: '0' <= c <= '9'
  {
    if n >= 10 {
      DigitsPlain(n / 10);
    }
  }

  lemma {:induction false} DigitsInjective(n: nat, m: nat)
    requires Digits(n) == Digits(m)
    ensures n == m
  {
    DigitsPlain(n / 10);
    DigitsPlain(m / 10);
    assert Digits(n)[|Digits(n)| - 1] == (48 + n % 10) as char && Digits(m)[|Digits(m)| - 1] == (48 + m % 10) as char;
    assert n % 10 == m % 10;
    assert Digits(n)[..|Digits(n)| - 1] == Digits(m)[..|Digits(m)| - 1];
    if n >= 10 && m >= 10 {
      assert Digits(n)[..|Digits(n)| - 1] == Digits(n / 10) && Digits(m)[..|Digits(m)| - 1] == Digits(m / 10);
      DigitsInjective(n / 10, m / 10);
    }
  }

  lemma DecimalPlain(n: int)
    ensures Plain(Decimal(n))
  {
    DigitsPlain(if n < 0 then -n else n);
  }

  lemma DecimalInjective(n: int, m: int)
    requires Decimal(n) == Decimal(m)
    ensures n == m
  {
    var a: nat, b: nat := if n < 0 then -n else n, if m < 0 then -m else m;
    DigitsPlain(a);
    DigitsPlain(b);
    hide Digits;
    if n < 0 && m < 0 {
      assert Decimal(n)[1..] == Digits(a) && Decimal(m)[1..] == Digits(b);
      DigitsInjective(a, b);
    } else if n >= 0 && m >= 0 {
      DigitsInjective(a, b);
    } else if n < 0 {
      SignsApart(n, m);
    } else {
      SignsApart(m, n);
    }
  }

  lemma SignsApart(n: int, m: int)
    requires n < 0 <= m
    ensures Decimal(n) != Decimal(m)
  {
    DigitsPlain(m);
    hide Digits;
    assert Digits(m)[0] in Digits(m);
    assert Decimal(n)[0] == '-';
  }

  // ----- Colons -----

  lemma FirstMark(mark: char, a: string, r: string, b: string, q: string)
    requires mark !in a && mark !in b && a + [mark] + r == b + [mark] + q
    ensures a == b && r == q
  {
    var x, y := a + [mark] + r, b + [mark] + q;
    assert x[|a|] == mark && y[|b|] == mark;
    assert forall i :: 0 <= i < |a| ==> x[i] == a[i];
    assert forall i :: 0 <= i < |b| ==> y[i] == b[i];
    assert |a| == |b|;
    assert x[..|a|] == a && y[..|b|] == b && x[|a| + 1..] == r && y[|b| + 1..] == q;
  }

  lemma LastColon(a: string, r: string, b: string, q: string)
    requires Plain(r) && Plain(q) && a + ":" + r == b + ":" + q
    ensures a == b && r == q
  {
    var x, y := a + ":" + r, b + ":" + q;
    assert x[|a|] == ':' && y[|b|] == ':';
    assert forall i :: |a| < i < |x| ==> x[i] == r[i - |a| - 1];
    assert forall i :: |b| < i < |y| ==> y[i] == q[i - |b| - 1];
    assert |a| == |b|;
    assert x[..|a|] == a && y[..|b|] == b && x[|a| + 1..] == r && y[|b| + 1..] == q;
  }

  // ----- Segment keys -----

  function Word(g: Group): string {
    match g
    case UserText => "user"
    case TurnMark => "turn"
    case AssistantText => "assistant"
    case Reasoning => "reasoning"
    case ToolUse => "tool"
    case Compaction => "compaction"
    case Approval => "approval"
    case Question => "user-input"
    case Usage => "usage"
    case Problem => "error"
    case Execution => "execution"
  }

  lemma WordsApart(g: Group, h: Group)
    ensures Plain(Word(g)) && (Word(g) == Word(h) ==> g == h)
  {
    var a, b := Word(g), Word(h);
    if a == b {
      assert a[0] == b[0] && a[1] == b[1] && a[|a| - 1] == b[|b| - 1] && |a| == |b|;
    }
  }

  /** What follows the word in the key. */
  function Rest(s: Segment): string {
    match s.group
    case UserText | TurnMark | Problem | Execution => s.turn
    case AssistantText | Reasoning | Usage | Compaction => s.turn + ":" + Decimal(s.number)
    case ToolUse => s.turn + ":" + s.name + ":" + Decimal(s.number)
    case Approval | Question => s.turn + ":" + s.name
  }

  /** The key of an event is its segment in words. */
  ghost predicate Spelled(e: Event, active: Option<string>) {
    && (SegmentKey(e, active).Some? <==> SegmentOf(e, active).Some?)
    && (SegmentOf(e, active).Some? ==>
          SegmentKey(e, active).value == Word(SegmentOf(e, active).value.group) + ":" + Rest(SegmentOf(e, active).value))
  }

  lemma KeyIs(e: Event, active: Option<string>)
    ensures Spelled(e, active)
  {
    hide Spelled;
    match GroupOf(e.kind)
    case None => NoKey(e, active);
    case Some(g) =>
      match g
      case UserText | TurnMark => TurnKey(e, active);
      case Problem | Execution => OutcomeKey(e, active);
      case AssistantText | Reasoning | Usage | Compaction => NumberedKey(e, active);
      case ToolUse => ToolUseKey(e, active);
      case Approval | Question => RequestKey(e, active);
  }

  lemma NoKey(e: Event, active: Option<string>)
    requires e.kind.PiEvent?
    ensures Spelled(e, active)
  {
  }

  lemma TurnKey(e: Event, active: Option<string>)
    requires GroupOf(e.kind) in {Some(UserText), Some(TurnMark)}
    ensures Spelled(e, active)
  {
    hide Decimal, PartNumber, Rest, Word;
    var id := TurnOf(e, active);
    WordRest(GroupOf(e.kind).value, if id.Some? then id.value else "active", "", 0);
  }

  lemma OutcomeKey(e: Event, active: Option<string>)
    requires GroupOf(e.kind) in {Some(Problem), Some(Execution)}
    ensures Spelled(e, active)
  {
    hide Decimal, PartNumber, Rest, Word;
    var id := TurnOf(e, active);
    WordRest(GroupOf(e.kind).value, if id.Some? then id.value else if e.kind.SessionError? then "active" else e.tag, "", 0);
  }

  lemma NumberedKey(e: Event, active: Option<string>)
    requires GroupOf(e.kind) in {Some(AssistantText), Some(Reasoning), Some(Usage), Some(Compaction)}
    ensures Spelled(e, active)
  {
    hide Decimal, PartNumber, Rest, Word;
    var id := TurnOf(e, active);
    WordRest(GroupOf(e.kind).value, if id.Some? then id.value else "active", "", PartNumber(e));
  }

  lemma RequestKey(e: Event, active: Option<string>)
    requires GroupOf(e.kind) in {Some(Approval), Some(Question)}
    ensures Spelled(e, active)
  {
    hide Decimal, PartNumber, Rest, Word;
    var id := TurnOf(e, active);
    WordRest(GroupOf(e.kind).value, if id.Some? then id.value else "active", e.tag, 0);
  }

  lemma ToolUseKey(e: Event, active: Option<string>)
    requires GroupOf(e.kind) == Some(ToolUse)
    ensures Spelled(e, active)
  {
    hide Decimal, PartNumber, Rest, Word, SegmentKey;
    var id := TurnOf(e, active);
    ToolRest(if id.Some? then id.value else "active", if e.toolCallId.Some? then e.toolCallId.value else "undefined",
             if e.ordinal.Some? then e.ordinal.value else 0);
    ToolKeyIs(e, active);
  }

  lemma ToolKeyIs(e: Event, active: Option<string>)
    requires GroupOf(e.kind) == Some(ToolUse)
    ensures SegmentKey(e, active).Some? <==> !e.kind.SubagentSession? || Given(e.toolCallId)
    ensures SegmentKey(e, active).Some? ==>
              var id := TurnOf(e, active);
              SegmentKey(e, active).value
              == "tool:" + (if id.Some? then id.value else "active") + ":"
                 + ((if e.toolCallId.Some? then e.toolCallId.value else "undefined") + ":"
                    + Decimal(if e.ordinal.Some? then e.ordinal.value else 0))
  {
    hide Decimal, PartNumber;
  }

  lemma ToolRest(turn: string, name: string, n: int)
    ensures "tool:" + turn + ":" + (name + ":" + Decimal(n))
         == Word(ToolUse) + ":" + Rest(Segment(ToolUse, turn, name, n))
  {
    hide Decimal;
    assert "tool:" == "tool" + ":";
  }

  /** The keys of the other groups. */
  lemma WordRest(g: Group, turn: string, name: string, n: int)
    requires g != ToolUse
    ensures Word(g) + ":" + Rest(Segment(g, turn, name, n))
         == match g
            case UserText => "user:" + turn
            case TurnMark => "turn:" + turn
            case AssistantText => "assistant:" + turn + ":" + Decimal(n)
            case Reasoning => "reasoning:" + turn + ":" + Decimal(n)
            case Compaction => "compaction:" + turn + ":" + Decimal(n)
            case Usage => "usage:" + turn + ":" + Decimal(n)
            case Approval => "approval:" + turn + ":" + name
            case Question => "user-input:" + turn + ":" + name
            case Problem => "error:" + turn
            case Execution => "execution:" + turn
            case ToolUse => ""
  {
    hide Decimal;
  }

  lemma RestsApart(a: Segment, b: Segment)
    requires a.group == b.group
    requires a.group !in {AssistantText, Reasoning, Usage, Compaction, ToolUse} ==> a.number == b.number
    ensures Rest(a) == Rest(b) <==> Alike(a, b)
  {
    DecimalPlain(a.number);
    DecimalPlain(b.number);
    hide Decimal, Plain;
    if Rest(a) == Rest(b) {
      if a.group in {AssistantText, Reasoning, Usage, Compaction} {
        LastColon(a.turn, Decimal(a.number), b.turn, Decimal(b.number));
        DecimalInjective(a.number, b.number);
      } else if a.group == ToolUse {
        LastColon(a.turn + ":" + a.name, Decimal(a.number), b.turn + ":" + b.name, Decimal(b.number));
        DecimalInjective(a.number, b.number);
      }
    }
  }

  lemma UnnumberedIsZero(e: Event, active: Option<string>)
    ensures SegmentOf(e, active).Some? ==>
              var s := SegmentOf(e, active).value;
              && (s.group !in {AssistantText, Reasoning, Usage, Compaction, ToolUse} ==> s.number == 0)
              && (s.group !in {ToolUse, Approval, Question} ==> s.name == "")
  {
    hide PartNumber;
  }

  /**
   * Two events get the same key exactly when they are of the same group of kinds, the same turn and the same part
   * number, tool call and ordinal, or request; except that turn and id are only told apart up to where the colon
   * between them stands.
   */
  lemma SameKeyExactly(e: Event, active: Option<string>, f: Event, other: Option<string>)
    requires SegmentOf(e, active).Some? && SegmentOf(f, other).Some?
    ensures SegmentKey(e, active).Some? && SegmentKey(f, other).Some?
    ensures SegmentKey(e, active) == SegmentKey(f, other) <==> Alike(SegmentOf(e, active).value, SegmentOf(f, other).value)
  {
    KeyIs(e, active);
    KeyIs(f, other);
    UnnumberedIsZero(e, active);
    UnnumberedIsZero(f, other);
    var a, b := SegmentOf(e, active).value, SegmentOf(f, other).value;
    hide SegmentKey, SegmentOf, Rest, Word, Alike;
    WordsApart(a.group, b.group);
    WordsApart(b.group, a.group);
    if SegmentKey(e, active) == SegmentKey(f, other) {
      FirstMark(':', Word(a.group), Rest(a), Word(b.group), Rest(b));
      RestsApart(a, b);
    } else if Alike(a, b) {
      assert a.group == b.group by { AlikeGroups(a, b); }
      RestsApart(a, b);
    }
  }

  lemma AlikeGroups(a: Segment, b: Segment)
    requires Alike(a, b)
    ensures a.group == b.group
  {
  }

  /** Where turn ids have no colon, only equal segments are alike. */
  lemma PlainTurnsApart(e: Event, active: Option<string>, f: Event, other: Option<string>)
    requires SegmentOf(e, active).Some? && SegmentOf(f, other).Some?
    requires Plain(SegmentOf(e, active).value.turn) && Plain(SegmentOf(f, other).value.turn)
    ensures SegmentKey(e, active) == SegmentKey(f, other) <==> SegmentOf(e, active) == SegmentOf(f, other)
  {
    SameKeyExactly(e, active, f, other);
    UnnumberedIsZero(e, active);
    UnnumberedIsZero(f, other);
    var a, b := SegmentOf(e, active).value, SegmentOf(f, other).value;
    hide SegmentKey, SegmentOf;
    if Alike(a, b) && a.group in {ToolUse, Approval, Question} {
      FirstMark(':', a.turn, a.name, b.turn, b.name);
    }
  }

  function Request(turn: string, id: string): Event {
    Event("s", ApprovalRequested, Some(turn), None, id, None, None, None, None, "", None, "")
  }

  /** Where they have, two requests of different turns can share a segment. */
  lemma ColonsConfuse()
    ensures SegmentOf(Request("a:b", "c"), None) != SegmentOf(Request("a", "b:c"), None)
    ensures SegmentKey(Request("a:b", "c"), None) == SegmentKey(Request("a", "b:c"), None)
  {
    assert "approval:" + "a:b" + ":" + "c" == "approval:" + "a" + ":" + "b:c";
  }

  // ----- Counters -----

  function PartWord(k: PartKind): string {
    match k
    case AssistantPart => "assistant"
    case ThinkingPart => "thinking"
    case UsagePart => "usage"
    case CompactionPart => "compaction"
  }

  lemma PartWordsApart(k: PartKind, l: PartKind)
    ensures Plain(PartWord(k)) && (PartWord(k) == PartWord(l) ==> k == l)
    ensures forall turn :: PartKey(turn, k) == PartWord(k) + ":" + turn
  {
    var a, b := PartWord(k), PartWord(l);
    if a == b {
      assert a[0] == b[0] && |a| == |b|;
    }
  }

  /** Each turn and kind of part has its own counter ... */
  lemma PartCountersApart(turn: string, k: PartKind, other: string, l: PartKind)
    ensures PartKey(turn, k) == PartKey(other, l) <==> turn == other && k == l
  {
    PartWordsApart(k, l);
    PartWordsApart(l, k);
    hide PartKey, PartWord;
    if PartKey(turn, k) == PartKey(other, l) {
      FirstMark(':', PartWord(k), turn, PartWord(l), other);
    }
  }

  /** ... and so has each turn and tool call, whatever their ids contain; "unscoped" stands for no turn. */
  lemma ToolCountersApart(turn: Option<string>, call: string, other: Option<string>, id: string)
    ensures ToolKey(turn, call) == ToolKey(other, id) <==>
              call == id && (if turn.Some? then turn.value else "unscoped") == (if other.Some? then other.value else "unscoped")
  {
    var t, u := if turn.Some? then turn.value else "unscoped", if other.Some? then other.value else "unscoped";
    DigitsPlain(|t|);
    DigitsPlain(|u|);
    hide Digits;
    if ToolKey(turn, call) == ToolKey(other, id) {
      assert ToolKey(turn, call) == Digits(|t|) + "," + (t + call);
      assert ToolKey(other, id) == Digits(|u|) + "," + (u + id);
      FirstMark(',', Digits(|t|), t + call, Digits(|u|), u + id);
      DigitsInjective(|t|, |u|);
      assert (t + call)[..|t|] == t && (u + id)[..|u|] == u && (t + call)[|t|..] == call && (u + id)[|u|..] == id;
    }
  }

  // ----- Over runs -----

  /** The segment of an event once it has its part or tool identity. */
  function SegmentIn(s: Session, e: Event, store: Answers): Option<Segment>
    requires ValidMap(s.parts) && ValidMap(s.tools)
  {
    var (s3, e3) := Identify(s, e, store);
    SegmentOf(e3, s3.activeEventId)
  }

  /** An event of the run has a segment like this one. */
  ghost predicate Occurred(inputs: seq<Input>, segment: Segment) {
    exists i :: 0 <= i < |inputs| && SegmentAt(inputs, i).Some? && Alike(SegmentAt(inputs, i).value, segment)
  }

  ghost function SegmentAt(inputs: seq<Input>, i: int): Option<Segment>
    requires 0 <= i < |inputs|
  {
    var s := Run(inputs[..i]).0;
    if Usable(s) then SegmentIn(s, inputs[i].event, inputs[i].store) else None
  }

  ghost function KeyAt(inputs: seq<Input>, i: int): Option<string>
    requires 0 <= i < |inputs|
  {
    var s := Run(inputs[..i]).0;
    if Usable(s) then KeyOf(s, inputs[i].event, inputs[i].store) else None
  }

  /** Every position on record is that of a segment that an event of the run had. */
  lemma {:induction false} RecordedOccurred(inputs: seq<Input>, key: string) returns (i: nat)
    requires key in Run(inputs).0.positions.vals
    ensures i < |inputs| && KeyAt(inputs, i) == Some(key)
  {
    hide Inv, PositionIn, Fresh, Advances, KeyOf, Run;
    if inputs == [] {
      RunNone();
      assert false;
    }
    var before, last := inputs[..|inputs| - 1], inputs[|inputs| - 1];
    RunInv(before);
    RunStep(inputs);
    PositionInKeeps(Run(before).0, last.event, last.now, last.store);
    if key in Run(before).0.positions.vals {
      i := RecordedOccurred(before, key);
      assert before[..i] == inputs[..i];
    } else {
      i := |inputs| - 1;
    }
  }

  lemma SegmentHasKey(s: Session, e: Event, store: Answers)
    requires Usable(s)
    ensures KeyOf(s, e, store).Some? <==> SegmentIn(s, e, store).Some?
  {
    hide Identify, SegmentKey, SegmentOf;
    var (s3, e3) := Identify(s, e, store);
    KeyIs(e3, s3.activeEventId);
  }

  lemma SameKeyAlike(s: Session, e: Event, store: Answers, s': Session, e': Event, store': Answers)
    requires Usable(s) && Usable(s') && KeyOf(s, e, store).Some? && KeyOf(s, e, store) == KeyOf(s', e', store')
    ensures SegmentIn(s, e, store).Some? && SegmentIn(s', e', store').Some?
    ensures Alike(SegmentIn(s, e, store).value, SegmentIn(s', e', store').value)
  {
    SegmentHasKey(s, e, store);
    SegmentHasKey(s', e', store');
    hide Identify, SegmentKey, SegmentOf, Alike;
    var (s3, e3) := Identify(s, e, store);
    var (s4, e4) := Identify(s', e', store');
    SameKeyExactly(e3, s3.activeEventId, e4, s4.activeEventId);
  }

  /** An event that brings no position and whose segment has not occurred in the session gets a new one ... */
  lemma NewSegmentIsFresh(inputs: seq<Input>, next: Input)
    requires !Valid(next.event.renderSequence) && Usable(Run(inputs).0)
    requires var g := SegmentIn(Run(inputs).0, next.event, next.store); g.Some? ==> !Occurred(inputs, g.value)
    ensures Fresh(Run(inputs).0, next.event, next.store)
  {
    hide Run, SegmentIn, KeyOf, Alike, ValidMap, Fresh, Occurred, KeyAt;
    var s := Run(inputs).0;
    SegmentHasKey(s, next.event, next.store);
    var key := KeyOf(s, next.event, next.store);
    if key.Some? && key.value in s.positions.vals {
      var i := RecordedOccurred(inputs, key.value);
      KeyOccurred(inputs, i, s, next);
      assert false;
    }
    NoKeyOnRecord(s, next.event, next.store);
  }

  lemma KeyOccurred(inputs: seq<Input>, i: nat, s: Session, next: Input)
    requires i < |inputs| && Usable(s) && KeyOf(s, next.event, next.store).Some?
    requires KeyAt(inputs, i) == KeyOf(s, next.event, next.store)
    ensures var g := SegmentIn(s, next.event, next.store); g.Some? && Occurred(inputs, g.value)
  {
    hide Run, SegmentIn, KeyOf, Alike;
    SameKeyAlike(Run(inputs[..i]).0, inputs[i].event, inputs[i].store, s, next.event, next.store);
    assert SegmentAt(inputs, i).Some?;
  }

  lemma NoKeyOnRecord(s: Session, e: Event, store: Answers)
    requires Usable(s) && !Valid(e.renderSequence)
    requires KeyOf(s, e, store).Some? ==> KeyOf(s, e, store).value !in s.positions.vals
    ensures Fresh(s, e, store)
  {
    hide KeyOf;
  }

  /** ... which is above all earlier ones of the session as long as the numbers advance. */
  lemma NewSegmentIsHighest(inputs: seq<Input>, next: Input)
    requires !Valid(next.event.renderSequence) && Usable(Run(inputs).0)
    requires var g := SegmentIn(Run(inputs).0, next.event, next.store); g.Some? ==> !Occurred(inputs, g.value)
    requires Advances(Run(inputs).0.last, next.now, next.store)
    ensures var out := Run(inputs + [next]).1;
            |out| == |inputs| + 1 && forall i :: 0 <= i < |inputs| ==> out[i] < out[|inputs|]
  {
    NewSegmentIsFresh(inputs, next);
    hide Run, Fresh, SegmentIn, Occurred, Advances, Usable;
    FreshIsHighest(inputs, next);
  }

  /** And an event of a segment still on record gets the position of that segment's first event. */
  lemma AlikeShare(s: Session, first: Input, more: seq<Input>, later: Input)
    requires Inv(s) && Usable(s) && SegmentIn(s, first.event, first.store).Some?
    requires var s1 := Step(s, first).0;
             && Tracked(s1, more, KeyOf(s, first.event, first.store).value)
             && Usable(After(s1, more)) && !Valid(later.event.renderSequence)
             && SegmentIn(After(s1, more), later.event, later.store).Some?
             && Alike(SegmentIn(s, first.event, first.store).value,
                      SegmentIn(After(s1, more), later.event, later.store).value)
    ensures var s1 := Step(s, first).0;
            PositionIn(After(s1, more), later.event, later.now, later.store).1.renderSequence
            == Some(s1.positions.vals[KeyOf(s, first.event, first.store).value])
  {
    var s1 := Step(s, first).0;
    AlikeKeys(s, first.event, first.store, After(s1, more), later.event, later.store);
    hide Inv, PositionIn, Tracked, After, Usable, KeyOf, Alike, SegmentIn;
    PositionInKeeps(s, first.event, first.now, first.store);
    SegmentShares(s1, more, KeyOf(s, first.event, first.store).value, later.event, later.now, later.store);
  }

  lemma AlikeKeys(s: Session, e: Event, store: Answers, s': Session, e': Event, store': Answers)
    requires Usable(s) && Usable(s') && SegmentIn(s, e, store).Some? && SegmentIn(s', e', store').Some?
    requires Alike(SegmentIn(s, e, store).value, SegmentIn(s', e', store').value)
    ensures KeyOf(s, e, store).Some? && KeyOf(s, e, store) == KeyOf(s', e', store')
  {
    SegmentHasKey(s, e, store);
    SegmentHasKey(s', e', store');
    hide Identify, SegmentKey, SegmentOf, Alike;
    var (s3, e3) := Identify(s, e, store);
    var (s4, e4) := Identify(s', e', store');
    SameKeyExactly(e3, s3.activeEventId, e4, s4.activeEventId);
  }
}
