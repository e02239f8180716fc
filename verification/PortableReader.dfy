/** Limits of a portable handoff. */
module PortableReader {
  // The loops of `src/agent-runtime/portable-history.ts` and the limits a handoff stays within.

  import opened PortableHistory
  import opened PortableLaws

  // ----- The longest suffix that fits -----

  lemma FitsMore(m: Measures, es: seq<Entry>, k: nat, maxEntries: nat, maxBytes: nat)
    requires k < |es| && Fits(m, es, k, maxEntries, maxBytes)
    ensures Fits(m, es, k + 1, maxEntries, maxBytes)
  {
    assert es[k..][1..] == es[k + 1..];
    assert NormalizeSizes(m, es[k..])[1..] == NormalizeSizes(m, es[k + 1..]);
  }

  /** How many entries the longest fitting suffix leaves out. */
  function Dropped(m: Measures, es: seq<Entry>, k: nat, maxEntries: nat, maxBytes: nat): (d: nat)
    requires k <= |es|
    ensures d <= k
  {
    if k == 0 || !Fits(m, es, k - 1, maxEntries, maxBytes) then k else Dropped(m, es, k - 1, maxEntries, maxBytes)
  }

  lemma {:induction false} DroppedIsLeast(m: Measures, es: seq<Entry>, k: nat, maxEntries: nat, maxBytes: nat)
    requires k <= |es| && Fits(m, es, k, maxEntries, maxBytes)
    ensures var d := Dropped(m, es, k, maxEntries, maxBytes);
            Fits(m, es, d, maxEntries, maxBytes) && forall j: nat :: j < d ==> !Fits(m, es, j, maxEntries, maxBytes)
  {
    hide Fits;
    if k > 0 {
      if Fits(m, es, k - 1, maxEntries, maxBytes) {
        DroppedIsLeast(m, es, k - 1, maxEntries, maxBytes);
      } else {
        forall j: nat | j < k ensures !Fits(m, es, j, maxEntries, maxBytes) {
          NoLongerFit(m, es, j, k - 1, maxEntries, maxBytes);
        }
      }
    }
  }

  lemma {:induction false} NoLongerFit(m: Measures, es: seq<Entry>, j: nat, k: nat, maxEntries: nat, maxBytes: nat)
    requires j <= k <= |es| && !Fits(m, es, k, maxEntries, maxBytes)
    ensures !Fits(m, es, j, maxEntries, maxBytes)
    decreases k - j
  {
    hide Fits;
    if j < k {
      NoLongerFit(m, es, j + 1, k, maxEntries, maxBytes);
      if Fits(m, es, j, maxEntries, maxBytes) {
        FitsMore(m, es, j, maxEntries, maxBytes);
      }
    }
  }

  function Bounded(m: Measures, es: seq<Entry>, maxEntries: nat, maxBytes: nat): (d: nat)
    ensures d <= |es|
  {
    Dropped(m, es, |es|, maxEntries, maxBytes)
  }

  function Reverse<T>(s: seq<T>): (r: seq<T>)
    ensures |r| == |s|
  {
    if s == [] then [] else Reverse(s[1..]) + [s[0]]
  }

  lemma {:induction false} ReversePush<T>(s: seq<T>, x: T)
    ensures Reverse(s + [x]) == [x] + Reverse(s)
  {
    if s == [] {
      assert s + [x] == [x] && [x][1..] == [];
    } else {
      ReversePush(s[1..], x);
      assert (s + [x])[1..] == s[1..] + [x];
    }
  }

  /** `boundEntries`: walks back from the newest entry until one limit is reached. */
  method BoundEntries(m: Measures, es: seq<Entry>, maxEntries: nat, maxBytes: nat)
    returns (kept: seq<Entry>, omitted: nat)
    ensures omitted == Bounded(m, es, maxEntries, maxBytes) && kept == NormalizeSizes(m, es[omitted..])
    ensures Fits(m, es, omitted, maxEntries, maxBytes)
    ensures forall j: nat :: j < omitted ==> !Fits(m, es, j, maxEntries, maxBytes)
  {
    hide Fits, Dropped, NormalizeEntrySize;
    var selected: seq<Entry> := [];
    var bytes := 0;
    var index := |es|;
    EmptyFits(m, es, maxEntries, maxBytes);
    while index > 0
      invariant 0 <= index <= |es|
      invariant Reverse(selected) == NormalizeSizes(m, es[index..]) && |selected| == |es| - index
      invariant bytes == TotalBytes(m, NormalizeSizes(m, es[index..]))
      invariant Fits(m, es, index, maxEntries, maxBytes)
      invariant Bounded(m, es, maxEntries, maxBytes) == Dropped(m, es, index, maxEntries, maxBytes)
    {
      var normalized := NormalizeEntrySize(m, es[index - 1]);
      var size := m.entry(normalized);
      OneMore(m, es, index, maxEntries, maxBytes);
      if |selected| >= maxEntries || bytes + size > maxBytes {
        break;
      }
      ReversePush(selected, normalized);
      selected := selected + [normalized];
      bytes := bytes + size;
      index := index - 1;
    }
    DroppedIsLeast(m, es, |es|, maxEntries, maxBytes);
    assert index == Bounded(m, es, maxEntries, maxBytes) by { DroppedStops(m, es, index, maxEntries, maxBytes); }
    kept, omitted := Reverse(selected), |es| - |selected|;
  }

  lemma EmptyFits(m: Measures, es: seq<Entry>, maxEntries: nat, maxBytes: nat)
    ensures es[|es|..] == [] && NormalizeSizes(m, es[|es|..]) == [] && Reverse<Entry>([]) == []
    ensures Fits(m, es, |es|, maxEntries, maxBytes)
  {
  }

  /** One step back: the suffix, its size, and whether it still fits. */
  lemma OneMore(m: Measures, es: seq<Entry>, index: nat, maxEntries: nat, maxBytes: nat)
    requires 0 < index <= |es|
    ensures var rest, first := NormalizeSizes(m, es[index..]), NormalizeEntrySize(m, es[index - 1]);
            && NormalizeSizes(m, es[index - 1..]) == [first] + rest
            && TotalBytes(m, NormalizeSizes(m, es[index - 1..])) == m.entry(first) + TotalBytes(m, rest)
            && (Fits(m, es, index - 1, maxEntries, maxBytes) <==>
                  |es| - index < maxEntries && TotalBytes(m, rest) + m.entry(first) <= maxBytes)
            && (Fits(m, es, index - 1, maxEntries, maxBytes) ==>
                  Dropped(m, es, index, maxEntries, maxBytes) == Dropped(m, es, index - 1, maxEntries, maxBytes))
            && (!Fits(m, es, index - 1, maxEntries, maxBytes) ==> Dropped(m, es, index, maxEntries, maxBytes) == index)
  {
    hide NormalizeEntrySize;
    assert es[index - 1..][1..] == es[index..];
    var rest, first := NormalizeSizes(m, es[index..]), NormalizeEntrySize(m, es[index - 1]);
    assert ([first] + rest)[1..] == rest;
  }

  lemma DroppedStops(m: Measures, es: seq<Entry>, index: nat, maxEntries: nat, maxBytes: nat)
    requires index <= |es| && (index == 0 || !Fits(m, es, index - 1, maxEntries, maxBytes))
    ensures Dropped(m, es, index, maxEntries, maxBytes) == index
  {
    hide Fits;
  }

  // ----- The read loop -----

  datatype Result = Ok(history: History) | TooLarge

  /** Assembles, and gives up the oldest retained entries until the whole fits. */
  function ReadFrom(m: Measures, f: Frame, retained: seq<Entry>, omitted: nat): Result
    decreases |retained|
  {
    var history := Assemble(f, retained, omitted);
    if m.history(history) <= MAX_HISTORY_BYTES then Ok(history)
    else if retained == [] then TooLarge
    else
      var n := RemoveCount(m, retained, m.history(history) - MAX_HISTORY_BYTES);
      ReadFrom(m, f, retained[n..], omitted + n)
  }

  function Read(m: Measures, f: Frame, es: seq<Entry>): Result {
    var k := Bounded(m, es, EntryLimit(f), ByteLimit(m, f));
    ReadFrom(m, f, NormalizeSizes(m, es[k..]), k)
  }

  /** `normalizeToolPairs`: one pass to collect the keys, one to repair the entries. */
  method NormalizePairs(es: seq<Entry>) returns (r: seq<Entry>)
    ensures r == NormalizeToolPairs(es)
  {
    hide Repair, CallKeys, ResultKeys;
    var calls: set<Key>, results: set<Key> := {}, {};
    for i := 0 to |es|
      invariant AllCalls(es) == calls + AllCalls(es[i..]) && AllResults(es) == results + AllResults(es[i..])
    {
      assert es[i..][0] == es[i] && es[i..][1..] == es[i + 1..];
      calls := calls + CallKeys(es[i]);
      results := results + ResultKeys(es[i]);
    }
    assert calls == AllCalls(es) && results == AllResults(es);
    r := [];
    for i := 0 to |es|
      invariant |r| == i && forall j :: 0 <= j < i ==> r[j] == Repair(calls, results, es[j])
    {
      r := r + [Repair(calls, results, es[i])];
    }
    assert r == RepairAll(calls, results, es);
  }

  /** `read`, given the history in order. */
  method ReadHandoff(m: Measures, f: Frame, es: seq<Entry>) returns (r: Result)
    ensures r == Read(m, f, es)
  {
    hide Fits, Assemble, RemoveCount, Bounded, NormalizeSizes, ByteLimit, ReadFrom, NormalizeToolPairs, Leading;
    var bounded, omitted := BoundEntries(m, es, EntryLimit(f), ByteLimit(m, f));
    var retained, additional := bounded, 0;
    while true
      invariant Read(m, f, es) == ReadFrom(m, f, retained, omitted + additional)
      decreases |retained|
    {
      ReadStep(m, f, retained, omitted + additional);
      var pairs := NormalizePairs(retained);
      var history := History(Leading(f, omitted + additional) + pairs, omitted + additional);
      assert history == Assemble(f, retained, omitted + additional) by { AssembleIs(f, retained, omitted + additional); }
      var bytes := m.history(history);
      if bytes <= MAX_HISTORY_BYTES {
        return Ok(history);
      }
      if retained == [] {
        return TooLarge;
      }
      var n := RemoveCount(m, retained, bytes - MAX_HISTORY_BYTES);
      retained := retained[n..];
      additional := additional + n;
    }
  }

  lemma AssembleIs(f: Frame, retained: seq<Entry>, omitted: nat)
    ensures Assemble(f, retained, omitted) == History(Leading(f, omitted) + NormalizeToolPairs(retained), omitted)
  {
  }

  lemma ReadStep(m: Measures, f: Frame, retained: seq<Entry>, omitted: nat)
    ensures var history := Assemble(f, retained, omitted);
            ReadFrom(m, f, retained, omitted) ==
            if m.history(history) <= MAX_HISTORY_BYTES then Ok(history)
            else if retained == [] then TooLarge
            else
              var n := RemoveCount(m, retained, m.history(history) - MAX_HISTORY_BYTES);
              ReadFrom(m, f, retained[n..], omitted + n)
  {
    hide Assemble, RemoveCount;
  }

  /** The loop ends with what is left after giving up some `d` entries, and gives up none without need. */
  lemma {:induction false} ReadFromGives(m: Measures, f: Frame, retained: seq<Entry>, omitted: nat) returns (d: nat)
    ensures d <= |retained|
    ensures var r := ReadFrom(m, f, retained, omitted);
            && (r.Ok? ==> r.history == Assemble(f, retained[d..], omitted + d) && m.history(r.history) <= MAX_HISTORY_BYTES)
            && (r.TooLarge? ==> d == |retained| && m.history(Assemble(f, [], omitted + d)) > MAX_HISTORY_BYTES)
            && (d > 0 ==> m.history(Assemble(f, retained, omitted)) > MAX_HISTORY_BYTES)
    decreases |retained|
  {
    hide Assemble, RemoveCount;
    var history := Assemble(f, retained, omitted);
    d := 0;
    if m.history(history) > MAX_HISTORY_BYTES && retained != [] {
      var n := RemoveCount(m, retained, m.history(history) - MAX_HISTORY_BYTES);
      var more := ReadFromGives(m, f, retained[n..], omitted + n);
      d := n + more;
      assert retained[n..][more..] == retained[d..];
    } else {
      assert retained[0..] == retained;
    }
  }

  lemma {:induction false} SizesKeepPlain(m: Measures, es: seq<Entry>)
    requires PlainResults(es)
    ensures PlainResults(NormalizeSizes(m, es))
  {
  }

  /** The handoff that leaves out the oldest `k` entries, and is small enough. */
  ghost predicate IsHandoff(m: Measures, f: Frame, es: seq<Entry>, k: nat, h: History) {
    && k <= |es| && |es| - k <= EntryLimit(f)
    && h == Assemble(f, NormalizeSizes(m, es[k..]), k) && m.history(h) <= MAX_HISTORY_BYTES
  }

  /** Reading gives the handoff for some suffix of the history, or even the empty one was too large. */
  lemma ReadGives(m: Measures, f: Frame, es: seq<Entry>) returns (k: nat)
    ensures var r := Read(m, f, es);
            if r.Ok? then IsHandoff(m, f, es, k, r.history)
            else k == |es| && m.history(Assemble(f, [], |es|)) > MAX_HISTORY_BYTES
  {
    hide *;
    var k0 := BoundedFits(m, f, es);
    var d := ReadFromGives(m, f, NormalizeSizes(m, es[k0..]), k0);
    SizesSuffix(m, es[k0..], d);
    assert es[k0..][d..] == es[k0 + d..];
    k := k0 + d;
    Shown(m, f, es, k);
  }

  lemma BoundedFits(m: Measures, f: Frame, es: seq<Entry>) returns (k: nat)
    ensures k <= |es| && |es| - k <= EntryLimit(f) && Read(m, f, es) == ReadFrom(m, f, NormalizeSizes(m, es[k..]), k)
  {
    k := Bounded(m, es, EntryLimit(f), ByteLimit(m, f));
    EmptyFits(m, es, EntryLimit(f), ByteLimit(m, f));
    DroppedIsLeast(m, es, |es|, EntryLimit(f), ByteLimit(m, f));
    hide NormalizeSizes, ReadFrom, ByteLimit, EntryLimit, TotalBytes, Dropped;
    assert Fits(m, es, k, EntryLimit(f), ByteLimit(m, f));
  }

  lemma Shown(m: Measures, f: Frame, es: seq<Entry>, k: nat)
    requires k <= |es| && |es| - k <= EntryLimit(f)
    ensures var h := Assemble(f, NormalizeSizes(m, es[k..]), k);
            m.history(h) <= MAX_HISTORY_BYTES <==> IsHandoff(m, f, es, k, h)
    ensures k == |es| ==> NormalizeSizes(m, es[k..]) == []
  {
    hide Assemble, EntryLimit;
  }

  /**
   * Every such handoff is at most 1 MiB and 1000 entries; its model part is the size-normalized, pair-repaired
   * suffix of the history after the `omitted` entries, and no call or result in it is alone.
   */
  lemma HandoffIsBounded(m: Measures, f: Frame, es: seq<Entry>, k: nat, h: History)
    requires IsHandoff(m, f, es, k, h) && PlainResults(es)
    ensures var pairs := NormalizeToolPairs(NormalizeSizes(m, es[k..]));
            && m.history(h) <= MAX_HISTORY_BYTES && |h.entries| <= MAX_HISTORY_ENTRIES
            && h == History(Leading(f, k) + pairs, k) && |pairs| + h.omitted == |es|
            && CallsAnswered(pairs) && ResultsCalled(pairs)
  {
    hide NormalizeToolPairs, NormalizeSizes, CallsAnswered, ResultsCalled, PlainResults;
    PlainSuffix(es, k);
    SizesKeepPlain(m, es[k..]);
    PlainResultsPair(NormalizeSizes(m, es[k..]));
  }

  lemma PlainSuffix(es: seq<Entry>, k: nat)
    requires PlainResults(es) && k <= |es|
    ensures PlainResults(es[k..])
  {
  }

  lemma {:induction false} SizesSuffix(m: Measures, es: seq<Entry>, d: nat)
    requires d <= |es|
    ensures NormalizeSizes(m, es)[d..] == NormalizeSizes(m, es[d..])
  {
  }
}
