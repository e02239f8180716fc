/** Numbering of content blocks. */
module ContentBlocks {
  // Numbering of assistant and thinking blocks inside one turn (`withActiveMessage` and `closeActiveContentParts` in
  // `src/agent-runtime/routed-session.ts`): four counters updated per event, proved to number blocks by counting
  // their openings in the event stream.

  datatype Option<+T> = None | Some(value: T)

  datatype Event =
    | AssistantDelta
    | AssistantMessage
    | ThinkingStarted
    | ThinkingDelta
    | ThinkingFinished
    | CompactionEnd(hasResult: bool, aborted: bool)
    | Other

  datatype Lane = Assistant | Thinking

  datatype Indices = Indices(
    activeAssistant: Option<nat>, nextAssistant: nat,
    activeThinking: Option<nat>, nextThinking: nat)

  function Reset(): Indices {
    Indices(None, 0, None, 0)
  }

  function GetOr(o: Option<nat>, d: nat): nat {
    if o.Some? then o.value else d
  }

  /** The counters after an event. */
  function Step(s: Indices, e: Event): Indices {
    var a, t := GetOr(s.activeAssistant, s.nextAssistant), GetOr(s.activeThinking, s.nextThinking);
    var a', t' := if s.activeAssistant.None? then s.nextAssistant + 1 else s.nextAssistant,
                  if s.activeThinking.None? then s.nextThinking + 1 else s.nextThinking;
    match e
    case AssistantDelta => s.(activeAssistant := Some(a), nextAssistant := a')
    case AssistantMessage => s.(activeAssistant := None, nextAssistant := a')
    case ThinkingStarted => s.(activeThinking := Some(s.nextThinking), nextThinking := s.nextThinking + 1)
    case ThinkingDelta => s.(activeThinking := Some(t), nextThinking := t')
    case ThinkingFinished => s.(activeThinking := None, nextThinking := t')
    case CompactionEnd(hasResult, aborted) =>
      if hasResult && !aborted then s.(activeAssistant := None, activeThinking := None) else s
    case Other => s
  }

  /** The index the event goes out with. */
  function Index(s: Indices, e: Event): Option<nat> {
    match e
    case AssistantDelta => Some(GetOr(s.activeAssistant, s.nextAssistant))
    case AssistantMessage => Some(GetOr(s.activeAssistant, s.nextAssistant))
    case ThinkingStarted => Some(s.nextThinking)
    case ThinkingDelta => Some(GetOr(s.activeThinking, s.nextThinking))
    case ThinkingFinished => Some(GetOr(s.activeThinking, s.nextThinking))
    case CompactionEnd(_, _) => None
    case Other => None
  }

  function After(es: seq<Event>): Indices {
    if es == [] then Reset() else Step(After(es[..|es| - 1]), es[|es| - 1])
  }

  /** The index of event `i` of a turn. */
  function IndexAt(es: seq<Event>, i: nat): Option<nat>
    requires i < |es|
  {
    Index(After(es[..i]), es[i])
  }

  // ----- What a block is, without counters -----

  predicate InLane(l: Lane, e: Event) {
    match l
    case Assistant => e.AssistantDelta? || e.AssistantMessage?
    case Thinking => e.ThinkingStarted? || e.ThinkingDelta? || e.ThinkingFinished?
  }

  /** The block of the lane ends with this event: its final event, or a successful compaction. */
  predicate Closes(l: Lane, e: Event) {
    || (l == Assistant && e.AssistantMessage?)
    || (l == Thinking && e.ThinkingFinished?)
    || (e.CompactionEnd? && e.hasResult && !e.aborted)
  }

  /** A block of the lane is open after these events: the last event that matters to the lane left it so. */
  predicate Open(l: Lane, es: seq<Event>) {
    if es == [] then false
    else
      var e := es[|es| - 1];
      if Closes(l, e) then false else if InLane(l, e) then true else Open(l, es[..|es| - 1])
  }

  /** Event `i` opens a block: it speaks in the lane while no block is open, or starts a new thought. */
  predicate Opens(l: Lane, es: seq<Event>, i: nat)
    requires i < |es|
  {
    InLane(l, es[i]) && (es[i].ThinkingStarted? || !Open(l, es[..i]))
  }

  /** How many blocks the first `n` events open. */
  function Openings(l: Lane, es: seq<Event>, n: nat): nat
    requires n <= |es|
  {
    if n == 0 then 0 else Openings(l, es, n - 1) + if Opens(l, es, n - 1) then 1 else 0
  }

  /** The counters are the openings so far, and the active index is the block that is open. */
  lemma {:induction false} CountersCount(es: seq<Event>, n: nat)
    requires n <= |es|
    ensures var s := After(es[..n]);
            && s.nextAssistant == Openings(Assistant, es, n) && s.nextThinking == Openings(Thinking, es, n)
            && (s.activeAssistant.Some? <==> Open(Assistant, es[..n]))
            && (s.activeThinking.Some? <==> Open(Thinking, es[..n]))
            && (s.activeAssistant.Some? ==> s.activeAssistant.value == Openings(Assistant, es, n) - 1)
            && (s.activeThinking.Some? ==> s.activeThinking.value == Openings(Thinking, es, n) - 1)
  {
    if n > 0 {
      CountersCount(es, n - 1);
      assert es[..n][..n - 1] == es[..n - 1];
      assert es[..n][n - 1] == es[n - 1];
    }
  }

  /** Block numbers are counts: the number of an event is the number of blocks opened in its lane up
      to and including it, less one. Openings are therefore numbered 0, 1, 2, ... without gaps. */
  lemma IndexIsOpenings(es: seq<Event>, i: nat, l: Lane)
    requires i < |es| && InLane(l, es[i])
    ensures IndexAt(es, i) == Some(Openings(l, es, i + 1) - 1)
  {
    CountersCount(es, i);
  }

  lemma {:induction false} OpeningsGrow(l: Lane, es: seq<Event>, m: nat, n: nat)
    requires m <= n <= |es|
    ensures Openings(l, es, m) <= Openings(l, es, n)
  {
    if m < n {
      OpeningsGrow(l, es, m, n - 1);
    }
  }

  /** Between a closing event and the next event of the lane nothing reopens it. */
  lemma {:induction false} StaysClosed(l: Lane, es: seq<Event>, c: nat, i: nat)
    requires c < i < |es| && Closes(l, es[c])
    requires forall k :: c < k < i ==> !InLane(l, es[k])
    ensures !Open(l, es[..i])
  {
    assert es[..i][..i - 1] == es[..i - 1];
    if i > c + 1 {
      StaysClosed(l, es, c, i - 1);
    }
  }

  /** A block closed by its final event or by a successful compaction is never written to again:
      whatever its lane carries later has a larger number. */
  lemma {:induction false} ClosedNeverReused(es: seq<Event>, j: nat, c: nat, i: nat, l: Lane)
    requires j <= c < i < |es| && InLane(l, es[j]) && Closes(l, es[c]) && InLane(l, es[i])
    ensures IndexAt(es, j).value < IndexAt(es, i).value
  {
    IndexIsOpenings(es, j, l);
    IndexIsOpenings(es, i, l);
    var k := NextInLane(l, es, c + 1, i);
    StaysClosed(l, es, c, k);
    OpeningsGrow(l, es, j + 1, k);
    OpeningsGrow(l, es, k + 1, i + 1);
  }

  /** The first event of the lane from `n` on. */
  lemma {:induction false} NextInLane(l: Lane, es: seq<Event>, n: nat, i: nat) returns (k: nat)
    requires n <= i < |es| && InLane(l, es[i])
    ensures n <= k <= i && InLane(l, es[k]) && forall m :: n <= m < k ==> !InLane(l, es[m])
    decreases i - n
  {
    if InLane(l, es[n]) {
      k := n;
    } else {
      k := NextInLane(l, es, n + 1, i);
    }
  }

  /** An event that opens nothing belongs to the block of the event before it in its lane. */
  lemma SharesBlock(es: seq<Event>, j: nat, i: nat, l: Lane)
    requires j < i < |es| && InLane(l, es[j]) && InLane(l, es[i]) && !Opens(l, es, i)
    requires forall k :: j < k < i ==> !InLane(l, es[k])
    ensures IndexAt(es, i) == IndexAt(es, j)
  {
    IndexIsOpenings(es, j, l);
    IndexIsOpenings(es, i, l);
    SameOpenings(l, es, j + 1, i);
  }

  lemma {:induction false} SameOpenings(l: Lane, es: seq<Event>, m: nat, n: nat)
    requires m <= n <= |es| && forall k :: m <= k < n ==> !InLane(l, es[k])
    ensures Openings(l, es, m) == Openings(l, es, n)
  {
    if m < n {
      SameOpenings(l, es, m, n - 1);
    }
  }

  /** The fields of the session that number blocks. */
  class ContentIndices {
    var activeAssistantIndex: Option<nat>
    var nextAssistantIndex: nat
    var activeThinkingIndex: Option<nat>
    var nextThinkingIndex: nat

    function View(): Indices
      reads this
    {
      Indices(activeAssistantIndex, nextAssistantIndex, activeThinkingIndex, nextThinkingIndex)
    }

    constructor ()
      ensures View() == Reset()
    {
      activeAssistantIndex, nextAssistantIndex, activeThinkingIndex, nextThinkingIndex := None, 0, None, 0;
    }

    method CloseActiveContentParts()
      modifies this
      ensures View() == old(View()).(activeAssistant := None, activeThinking := None)
    {
      activeAssistantIndex := None;
      activeThinkingIndex := None;
    }

    method ResetContentIndices()
      modifies this
      ensures View() == Reset()
    {
      CloseActiveContentParts();
      nextAssistantIndex := 0;
      nextThinkingIndex := 0;
    }

    /** `withActiveMessage` for a turn with an event id, and the closing done for a compaction. */
    method WithActiveMessage(event: Event) returns (index: Option<nat>)
      modifies this
      ensures View() == Step(old(View()), event) && index == Index(old(View()), event)
    {
      index := None;
      match event
      case AssistantDelta =>
        var assistantIndex := GetOr(activeAssistantIndex, nextAssistantIndex);
        if activeAssistantIndex.None? {
          nextAssistantIndex := nextAssistantIndex + 1;
          activeAssistantIndex := Some(assistantIndex);
        }
        index := Some(assistantIndex);
      case AssistantMessage =>
        var assistantIndex := GetOr(activeAssistantIndex, nextAssistantIndex);
        if activeAssistantIndex.None? {
          nextAssistantIndex := nextAssistantIndex + 1;
        }
        activeAssistantIndex := None;
        index := Some(assistantIndex);
      case ThinkingStarted =>
        index := Some(nextThinkingIndex);
        activeThinkingIndex := index;
        nextThinkingIndex := nextThinkingIndex + 1;
      case ThinkingDelta =>
        var thinkingIndex := ContinueThought();
        index := Some(thinkingIndex);
      case ThinkingFinished =>
        var thinkingIndex := ContinueThought();
        index := Some(thinkingIndex);
        activeThinkingIndex := None;
      case CompactionEnd(hasResult, aborted) =>
        if hasResult && !aborted {
          CloseActiveContentParts();
        }
      case Other =>
    }

    method ContinueThought() returns (thinkingIndex: nat)
      modifies this
      ensures View() == Step(old(View()), ThinkingDelta) && Some(thinkingIndex) == Index(old(View()), ThinkingDelta)
    {
      thinkingIndex := GetOr(activeThinkingIndex, nextThinkingIndex);
      if activeThinkingIndex.None? {
        nextThinkingIndex := nextThinkingIndex + 1;
        activeThinkingIndex := Some(thinkingIndex);
      }
    }
  }
}
