/** Entries, their sizes and their pairs. */
module PortableHistory {
  // The pure part of `src/agent-runtime/portable-history.ts`: entries, size normalization and the repair of tool
  // calls and results that truncation has parted.

  datatype Option<+T> = None | Some(value: T)

  datatype Role = User | Assistant | Tool | System

  /** `input` and `result` below are JSON values in their printed form. */
  datatype Part = Text(text: string) | Reasoning(text: string) | ToolCall(callId: string, name: string, input: Option<string>)

  datatype Content = Plain(text: string) | Parts(parts: seq<Part>)

  /** `extra` stands for the fields that this code never looks at. */
  datatype Entry =
    | Message(id: string, turnId: Option<string>, role: Role, content: Content, callId: Option<string>,
              toolName: Option<string>, result: Option<string>, isError: Option<bool>, extra: string)
    | SessionInfo(id: string, name: string, extra: string)

  const MAX_HISTORY_ENTRIES := 1000
  const MAX_HISTORY_BYTES := 1024 * 1024
  const MAX_ENTRY_BYTES := 256 * 1024
  const RESERVE_BYTES := 16 * 1024

  /** UTF-8 lengths of serialized entries and histories, and `boundedText`. */
  datatype Measures = Measures(entry: Entry -> nat, history: History -> nat, cut: string -> string)

  /** The handoff; `omitted` entries of the history came before the ones in it. */
  datatype History = History(entries: seq<Entry>, omitted: nat)

  // ----- Pairing -----

  datatype Key = Key(turnId: Option<string>, callId: string)

  /** The key of a tool result; an empty call id counts as none. */
  function ResultKey(e: Entry): Option<Key> {
    if e.Message? && e.role.Tool? && e.callId.Some? && e.callId.value != "" then Some(Key(e.turnId, e.callId.value))
    else None
  }

  predicate CallsIn(e: Entry, k: Key) {
    e.Message? && e.content.Parts? && e.turnId == k.turnId
    && exists p <- e.content.parts :: p.ToolCall? && p.callId == k.callId
  }

  predicate HasCall(es: seq<Entry>, k: Key) {
    exists e <- es :: CallsIn(e, k)
  }

  predicate HasResult(es: seq<Entry>, k: Key) {
    exists e <- es :: ResultKey(e) == Some(k)
  }

  function Join(a: string, b: string): string {
    a + "\n" + b
  }

  function OrphanText(e: Entry): string
    requires e.Message?
  {
    Join("[Portable fallback: result from tool \"" + (if e.toolName.Some? then e.toolName.value else "tool")
         + "\" had no retained matching call.]",
         if e.content.Plain? then e.content.text else if e.result.Some? then e.result.value else "null")
  }

  function CallText(p: Part): string
    requires p.ToolCall?
  {
    Join("[Portable fallback: tool call \"" + p.name + "\" had no retained result.]",
         "Input: " + if p.input.Some? then p.input.value else "null")
  }

  function RepairPart(results: set<Key>, turnId: Option<string>, p: Part): Part {
    if p.ToolCall? && Key(turnId, p.callId) !in results then Text(CallText(p)) else p
  }

  function RepairParts(results: set<Key>, turnId: Option<string>, ps: seq<Part>): (r: seq<Part>)
    ensures |r| == |ps| && forall i :: 0 <= i < |ps| ==> r[i] == RepairPart(results, turnId, ps[i])
  {
    if ps == [] then [] else [RepairPart(results, turnId, ps[0])] + RepairParts(results, turnId, ps[1..])
  }

  predicate IsOrphan(calls: set<Key>, e: Entry) {
    ResultKey(e).Some? && ResultKey(e).value !in calls
  }

  /** The map step of `normalizeToolPairs`. */
  function Repair(calls: set<Key>, results: set<Key>, e: Entry): Entry {
    if e.SessionInfo? then e
    else if IsOrphan(calls, e) then
      e.(role := User, content := Plain(OrphanText(e)), callId := None, toolName := None, result := None, isError := None)
    else if !e.role.Assistant? || !e.content.Parts? then e
    else
      var parts := RepairParts(results, e.turnId, e.content.parts);
      if exists p <- parts :: p.ToolCall? then e.(content := Parts(parts))
      else e.(content := Parts(parts), callId := None, toolName := None)
  }

  function PartKeys(turnId: Option<string>, ps: seq<Part>): set<Key> {
    set p <- ps | p.ToolCall? :: Key(turnId, p.callId)
  }

  function CallKeys(e: Entry): set<Key> {
    if e.Message? && e.content.Parts? then PartKeys(e.turnId, e.content.parts) else {}
  }

  function ResultKeys(e: Entry): set<Key> {
    if ResultKey(e).Some? then {ResultKey(e).value} else {}
  }

  function AllCalls(es: seq<Entry>): set<Key> {
    if es == [] then {} else CallKeys(es[0]) + AllCalls(es[1..])
  }

  function AllResults(es: seq<Entry>): set<Key> {
    if es == [] then {} else ResultKeys(es[0]) + AllResults(es[1..])
  }

  function RepairAll(calls: set<Key>, results: set<Key>, es: seq<Entry>): (r: seq<Entry>)
    ensures |r| == |es| && forall i :: 0 <= i < |es| ==> r[i] == Repair(calls, results, es[i])
  {
    if es == [] then [] else [Repair(calls, results, es[0])] + RepairAll(calls, results, es[1..])
  }

  function NormalizeToolPairs(es: seq<Entry>): (r: seq<Entry>)
    ensures |r| == |es|
  {
    RepairAll(AllCalls(es), AllResults(es), es)
  }

  // ----- Bounding -----

  function StringContent(c: Content): string {
    if c.Plain? then c.text else JoinParts(c.parts)
  }

  function PartText(p: Part): string {
    if p.ToolCall? then p.name + ":" + (if p.input.Some? then p.input.value else "null") else p.text
  }

  function JoinParts(ps: seq<Part>): string {
    if ps == [] then "" else if |ps| == 1 then PartText(ps[0]) else Join(PartText(ps[0]), JoinParts(ps[1..]))
  }

  function NormalizeEntrySize(m: Measures, e: Entry): Entry {
    if e.SessionInfo? then e
    else if e.content.Plain? then e.(content := Plain(m.cut(e.content.text)))
    else if m.entry(e) <= MAX_ENTRY_BYTES then e
    else
      e.(content := Plain(m.cut(StringContent(e.content))),
         result := if e.result.None? then None
                   else Some("{\"portableFallback\":\"Structured history content exceeded the per-entry limit.\"}"))
  }

  function NormalizeSizes(m: Measures, es: seq<Entry>): (r: seq<Entry>)
    ensures |r| == |es| && forall i :: 0 <= i < |es| ==> r[i] == NormalizeEntrySize(m, es[i])
  {
    if es == [] then [] else [NormalizeEntrySize(m, es[0])] + NormalizeSizes(m, es[1..])
  }

  function TotalBytes(m: Measures, es: seq<Entry>): nat {
    if es == [] then 0 else m.entry(es[0]) + TotalBytes(m, es[1..])
  }

  /** The entries from `k` on, brought to size, are within both limits. */
  predicate Fits(m: Measures, es: seq<Entry>, k: nat, maxEntries: nat, maxBytes: nat)
    requires k <= |es|
  {
    |es| - k <= maxEntries && TotalBytes(m, NormalizeSizes(m, es[k..])) <= maxBytes
  }

  // ----- The whole read -----

  /** What comes before the retained entries: the context entry, and one for entries that cannot be carried. */
  datatype Frame = Frame(context: Entry, nonPortable: Option<Entry>, fallback: nat -> Entry)

  function Leading(f: Frame, omitted: nat): seq<Entry> {
    [f.context] + (if f.nonPortable.Some? then [f.nonPortable.value] else []) + (if omitted > 0 then [f.fallback(omitted)] else [])
  }

  function Assemble(f: Frame, retained: seq<Entry>, omitted: nat): History {
    History(Leading(f, omitted) + NormalizeToolPairs(retained), omitted)
  }

  function EntryLimit(f: Frame): nat {
    MAX_HISTORY_ENTRIES - if f.nonPortable.Some? then 3 else 2
  }

  function ByteLimit(m: Measures, f: Frame): nat {
    var left := MAX_HISTORY_BYTES - m.entry(f.context) - (if f.nonPortable.Some? then m.entry(f.nonPortable.value) else 0)
                - RESERVE_BYTES;
    if left < 0 then 0 else left
  }

  function Min(a: int, b: int): int {
    if a < b then a else b
  }

  function Max(a: int, b: int): int {
    if a > b then a else b
  }

  /** How many entries to give up when `excess` bytes are too many. */
  function RemoveCount(m: Measures, retained: seq<Entry>, excess: nat): (n: nat)
    requires retained != []
    ensures 1 <= n <= |retained|
  {
    var average := Max(1, TotalBytes(m, retained) / |retained|);
    Min(|retained|, Max(1, (excess + average - 1) / average))
  }
}
