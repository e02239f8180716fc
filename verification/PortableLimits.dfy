/** How much history a handoff gives up. */
module PortableLimits {
  // How much of the history a handoff keeps, and what the repair and the limits leave of an entry.

  import opened PortableHistory
  import opened PortableLaws
  import opened PortableReader

  // ----- Sizes -----

  /** Sizes add up entry by entry. */
  lemma {:induction false} BytesAdd(m: Measures, a: seq<Entry>, b: seq<Entry>)
    ensures TotalBytes(m, a + b) == TotalBytes(m, a) + TotalBytes(m, b)
    ensures |a| == 1 ==> TotalBytes(m, a) == m.entry(a[0])
  {
    if a == [] {
      assert a + b == b;
    } else {
      assert (a + b)[1..] == a[1..] + b;
      BytesAdd(m, a[1..], b);
    }
  }

  /**
   * Bringing an entry to size touches its content and result alone: text is cut, and structured content stays as it is
   * up to 256 KiB and is cut as text above.
   */
  lemma SizedEntry(m: Measures, e: Entry)
    ensures var r := NormalizeEntrySize(m, e);
            && (e.SessionInfo? ==> r == e)
            && (e.Message? ==> r == e.(content := r.content, result := r.result))
            && (e.Message? && r.content.Parts? ==> r == e && m.entry(e) <= 262_144)
            && (e.Message? && e.content.Parts? && m.entry(e) <= 262_144 ==> r == e)
            && (e.Message? && e.content.Plain? ==> r.result == e.result && r.content == Plain(m.cut(e.content.text)))
            && (e.Message? && e.content.Parts? && m.entry(e) > 262_144 ==> exists s :: r.content == Plain(m.cut(s)))
            && (e.Message? && (e.result.None? || r.content.Parts?) ==> r.result == e.result)
  {
    hide StringContent;
  }

  // ----- The first cut -----

  /** The entries from `j` on leave room for the framing entries and the envelope. */
  ghost predicate LeavesRoom(m: Measures, f: Frame, es: seq<Entry>, j: nat)
    requires j <= |es|
  {
    var bytes := TotalBytes(m, NormalizeSizes(m, es[j..]));
    && |es| - j <= (if f.nonPortable.Some? then 997 else 998)
    && (bytes == 0
        || bytes + m.entry(f.context) + (if f.nonPortable.Some? then m.entry(f.nonPortable.value) else 0) + 16_384
           <= 1_048_576)
  }

  lemma RoomIs(m: Measures, f: Frame, es: seq<Entry>, j: nat)
    requires j <= |es|
    ensures LeavesRoom(m, f, es, j) <==> Fits(m, es, j, EntryLimit(f), ByteLimit(m, f))
  {
    hide TotalBytes, NormalizeSizes;
  }

  // ----- The later cuts -----

  /** An average entry: at least one byte, and the whole bytes of the mean. */
  predicate IsAverage(m: Measures, es: seq<Entry>, average: nat) {
    && average >= 1 && TotalBytes(m, es) < (average + 1) * |es|
    && (average == 1 || average * |es| <= TotalBytes(m, es))
  }

  /** `n` is the least number of entries that would make up for the excess if all were average, or all there are. */
  ghost predicate LeastCover(m: Measures, es: seq<Entry>, excess: int, n: nat) {
    && 1 <= n <= |es|
    && exists average: nat :: IsAverage(m, es, average) && (n - 1) * average < excess && (n < |es| ==> excess <= n * average)
  }

  lemma DivisionBounds(a: nat, d: nat)
    requires d >= 1
    ensures a / d * d <= a < (a / d + 1) * d
  {
    assert a == a / d * d + a % d;
    assert (a / d + 1) * d == a / d * d + d;
  }

  lemma AverageIs(m: Measures, es: seq<Entry>)
    requires es != []
    ensures IsAverage(m, es, Max(1, TotalBytes(m, es) / |es|))
  {
    var total := TotalBytes(m, es);
    DivisionBounds(total, |es|);
    if total / |es| == 0 {
      assert (0 + 1) * |es| == |es|;
      assert (1 + 1) * |es| == 2 * |es|;
    }
  }

  lemma RemoveCountIsLeast(m: Measures, es: seq<Entry>, excess: nat)
    requires es != [] && excess >= 1
    ensures LeastCover(m, es, excess, RemoveCount(m, es, excess))
  {
    var average := Max(1, TotalBytes(m, es) / |es|);
    AverageIs(m, es);
    hide TotalBytes, IsAverage;
    CeilingIs(excess, average, |es|);
    assert IsAverage(m, es, average);
  }

  lemma CeilingIs(excess: nat, average: nat, most: nat)
    requires excess >= 1 && average >= 1 && most >= 1
    ensures var n := Min(most, Max(1, (excess + average - 1) / average));
            1 <= n <= most && (n - 1) * average < excess && (n < most ==> excess <= n * average)
  {
    var q := (excess + average - 1) / average;
    DivisionBounds(excess + average - 1, average);
    assert (q + 1) * average == q * average + average;
    assert (q - 1) * average == q * average - average;
    var n := Min(most, Max(1, q));
    if n < q {
      assert (n - 1) * average <= (q - 1) * average;
    }
  }

  /** What is too large is cut by the least number of average entries, again and again, at these places. */
  ghost predicate Stages(m: Measures, f: Frame, es: seq<Entry>, omitted: nat, cuts: seq<nat>) {
    && cuts != [] && cuts[0] == 0 && cuts[|cuts| - 1] <= |es|
    && forall i :: 0 <= i < |cuts| - 1 ==> Cut(m, f, es, omitted, cuts[i], cuts[i + 1])
  }

  ghost predicate Cut(m: Measures, f: Frame, es: seq<Entry>, omitted: nat, from: nat, to: nat) {
    && from < to <= |es|
    && (var bytes := m.history(Assemble(f, es[from..], omitted + from));
        bytes > 1_048_576 && LeastCover(m, es[from..], bytes - 1_048_576, to - from))
  }

  lemma CutLater(m: Measures, f: Frame, es: seq<Entry>, omitted: nat, n: nat, from: nat, to: nat)
    requires n <= |es| && Cut(m, f, es[n..], omitted + n, from, to)
    ensures Cut(m, f, es, omitted, n + from, n + to)
  {
    assert es[n..][from..] == es[n + from..];
    hide Assemble, LeastCover;
  }

  /** The read loop goes through such stages, and ends at the first that is small enough, or with nothing left. */
  lemma {:induction false} ReadStages(m: Measures, f: Frame, es: seq<Entry>, omitted: nat) returns (cuts: seq<nat>)
    ensures Stages(m, f, es, omitted, cuts)
    ensures var last := cuts[|cuts| - 1];
            var h := Assemble(f, es[last..], omitted + last);
            ReadFrom(m, f, es, omitted)
            == if m.history(h) <= 1_048_576 then Ok(h) else TooLarge
    ensures var last := cuts[|cuts| - 1];
            m.history(Assemble(f, es[last..], omitted + last)) > 1_048_576 ==> last == |es|
    decreases |es|
  {
    hide Assemble, RemoveCount, LeastCover, Cut;
    var bytes := m.history(Assemble(f, es, omitted));
    assert es[0..] == es;
    cuts := [0];
    if bytes > MAX_HISTORY_BYTES && es != [] {
      var n := RemoveCount(m, es, bytes - MAX_HISTORY_BYTES);
      var rest := ReadStages(m, f, es[n..], omitted + n);
      cuts := [0] + seq(|rest|, i requires 0 <= i < |rest| => n + rest[i]);
      assert es[n..][rest[|rest| - 1]..] == es[n + rest[|rest| - 1]..];
      FirstCut(m, f, es, omitted);
      forall i | 0 <= i < |cuts| - 1 ensures Cut(m, f, es, omitted, cuts[i], cuts[i + 1]) {
        if i > 0 {
          CutLater(m, f, es, omitted, n, rest[i - 1], rest[i]);
        }
      }
    }
  }

  lemma FirstCut(m: Measures, f: Frame, es: seq<Entry>, omitted: nat)
    requires es != [] && m.history(Assemble(f, es, omitted)) > MAX_HISTORY_BYTES
    ensures Cut(m, f, es, omitted, 0, RemoveCount(m, es, m.history(Assemble(f, es, omitted)) - MAX_HISTORY_BYTES))
  {
    RemoveCountIsLeast(m, es, m.history(Assemble(f, es, omitted)) - MAX_HISTORY_BYTES);
    assert es[0..] == es;
    hide Assemble, RemoveCount, LeastCover;
  }

  /**
   * Exactly what a read gives up: first the least number of oldest entries for which the rest leaves room, then, while
   * the assembled handoff is too large, the least number of average entries that make up for the excess.
   */
  lemma ReadExactly(m: Measures, f: Frame, es: seq<Entry>) returns (k: nat, cuts: seq<nat>)
    ensures k <= |es| && LeavesRoom(m, f, es, k) && forall j: nat :: j < k ==> !LeavesRoom(m, f, es, j)
    ensures var kept := NormalizeSizes(m, es[k..]);
            && Stages(m, f, kept, k, cuts)
            && (var last := cuts[|cuts| - 1];
                var h := Assemble(f, kept[last..], k + last);
                && Read(m, f, es) == (if m.history(h) <= 1_048_576 then Ok(h) else TooLarge)
                && (m.history(h) > 1_048_576 ==> last == |kept|))
  {
    hide LeavesRoom, Fits, NormalizeSizes, ReadFrom, Assemble, Stages, EntryLimit, ByteLimit, Dropped;
    k := Bounded(m, es, EntryLimit(f), ByteLimit(m, f));
    EmptyFits(m, es, EntryLimit(f), ByteLimit(m, f));
    DroppedIsLeast(m, es, |es|, EntryLimit(f), ByteLimit(m, f));
    RoomIs(m, f, es, k);
    forall j: nat | j < k ensures !LeavesRoom(m, f, es, j) {
      RoomIs(m, f, es, j);
    }
    cuts := ReadStages(m, f, NormalizeSizes(m, es[k..]), k);
    assert cuts != [] by { StagesSome(m, f, NormalizeSizes(m, es[k..]), k, cuts); }
  }

  lemma StagesSome(m: Measures, f: Frame, es: seq<Entry>, omitted: nat, cuts: seq<nat>)
    requires Stages(m, f, es, omitted, cuts)
    ensures cuts != [] && cuts[|cuts| - 1] <= |es|
  {
  }

  // ----- What the repair keeps -----

  predicate EndsWith(text: string, end: string) {
    |end| <= |text| && text[|text| - |end|..] == end
  }

  /** A result that lost its call, or a call that lost its result, still says what it said. */
  lemma FallbacksTell(e: Entry, p: Part)
    ensures e.Message? ==>
              EndsWith(OrphanText(e), if e.content.Plain? then e.content.text
                                      else if e.result.Some? then e.result.value else "null")
    ensures p.ToolCall? ==> EndsWith(CallText(p), "Input: " + if p.input.Some? then p.input.value else "null")
  {
  }

  /** The part says in words that it was a call. */
  predicate WasCall(p: Part, q: Part) {
    p.ToolCall? && q == Text(CallText(p))
  }

  /**
   * What the repair makes of each entry: a tool result without a call in the history is a user's message that carries
   * no ids any more; an assistant's call without a result is text, other parts stay, and the message keeps its tool ids
   * exactly as long as it has a call; and everything else is as it was.
   */
  lemma RepairedEntry(es: seq<Entry>, i: nat)
    requires i < |es|
    ensures es[i].Message? && es[i].role.Tool? && (es[i].callId.None? || es[i].callId.value == "") ==>
              NormalizeToolPairs(es)[i] == es[i]
    ensures var e, r := es[i], NormalizeToolPairs(es)[i];
            if ResultKey(e).Some? && !HasCall(es, ResultKey(e).value) then
              && r == e.(role := User, content := r.content, callId := None, toolName := None, result := None,
                         isError := None)
              && r.content == Plain(OrphanText(e))
            else if e.Message? && e.role.Assistant? && e.content.Parts? then
              && r.Message? && r.content.Parts? && |r.content.parts| == |e.content.parts|
              && (forall j :: 0 <= j < |e.content.parts| ==>
                    var p, q := e.content.parts[j], r.content.parts[j];
                    if p.ToolCall? && !HasResult(es, Key(e.turnId, p.callId)) then WasCall(p, q) else q == p)
              && r == e.(content := r.content, callId := r.callId, toolName := r.toolName)
              && (if exists p <- r.content.parts :: p.ToolCall? then r.callId == e.callId && r.toolName == e.toolName
                  else r.callId == None && r.toolName == None)
            else r == e
  {
    var e := es[i];
    hide CallText, OrphanText;
    if ResultKey(e).Some? {
      AllCallsIs(es, ResultKey(e).value);
    }
    if e.Message? && e.role.Assistant? && e.content.Parts? {
      forall p <- e.content.parts | p.ToolCall?
        ensures Key(e.turnId, p.callId) in AllResults(es) <==> HasResult(es, Key(e.turnId, p.callId))
      {
        AllResultsIs(es, Key(e.turnId, p.callId));
      }
    }
    hide AllCalls, AllResults, HasCall, HasResult;
  }

  /**
   * A handoff begins with the context, says next that entries could not be carried, if there were any, and how many
   * older ones it leaves out, if it does; what it retains comes last.
   */
  lemma HandoffBegins(f: Frame, retained: seq<Entry>, omitted: nat)
    ensures var h := Assemble(f, retained, omitted);
            var framing := 1 + (if f.nonPortable.Some? then 1 else 0) + if omitted == 0 then 0 else 1;
            && |h.entries| == framing + |retained| && h.omitted == omitted && h.entries[0] == f.context
            && (f.nonPortable.Some? ==> h.entries[1] == f.nonPortable.value)
            && (omitted > 0 ==> h.entries[framing - 1] == f.fallback(omitted))
            && h.entries[framing..] == NormalizeToolPairs(retained)
  {
    hide NormalizeToolPairs;
  }
}
