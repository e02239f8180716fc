/** What the pair repair keeps and establishes. */
module PortableLaws {
  import opened PortableHistory

  lemma {:induction false} AllCallsIs(es: seq<Entry>, k: Key)
    ensures k in AllCalls(es) <==> HasCall(es, k)
  {
    if es != [] {
      AllCallsIs(es[1..], k);
      if HasCall(es, k) && !HasCall(es[1..], k) {
        var e :| e in es && CallsIn(e, k);
        assert e == es[0];
      }
      if HasCall(es[1..], k) {
        var e :| e in es[1..] && CallsIn(e, k);
        assert e in es;
      }
      CallKeysIs(es[0], k);
      assert es[0] in es;
    }
  }

  lemma CallKeysIs(e: Entry, k: Key)
    ensures k in CallKeys(e) <==> CallsIn(e, k)
  {
    if CallsIn(e, k) {
      var p :| p in e.content.parts && p.ToolCall? && p.callId == k.callId;
      assert Key(e.turnId, p.callId) == k;
    }
  }

  lemma {:induction false} AllResultsIs(es: seq<Entry>, k: Key)
    ensures k in AllResults(es) <==> HasResult(es, k)
  {
    if es != [] {
      AllResultsIs(es[1..], k);
      if HasResult(es, k) && !HasResult(es[1..], k) {
        var e :| e in es && ResultKey(e) == Some(k);
        assert e == es[0];
      }
      if HasResult(es[1..], k) {
        var e :| e in es[1..] && ResultKey(e) == Some(k);
        assert e in es;
      }
      assert es[0] in es;
    }
  }

  /** Nothing is added, dropped or moved; entries that are neither tool results nor assistant messages stay. */
  lemma KeepsLengthAndOrder(es: seq<Entry>)
    ensures var r := NormalizeToolPairs(es);
            |r| == |es| && forall i :: 0 <= i < |es| ==>
              && r[i].id == es[i].id && r[i].extra == es[i].extra
              && (es[i].Message? <==> r[i].Message?)
              && (es[i].Message? ==> r[i].turnId == es[i].turnId)
              && (es[i].Message? && (es[i].role.User? || es[i].role.System?) ==> r[i] == es[i])
  {
  }

  // ----- Calls and their results -----

  /** A tool result that the repair leaves a tool result. */
  predicate KeptResult(es: seq<Entry>, e: Entry) {
    ResultKey(e).Some? && HasCall(es, ResultKey(e).value)
  }

  /**
   * The only way to lose the call of a kept result: it is written in the parts of entries that are
   * themselves results without a call, and so are turned into plain text.
   */
  predicate CallSurvives(es: seq<Entry>, k: Key) {
    exists e <- es :: CallsIn(e, k) && !IsOrphan(AllCalls(es), e)
  }

  ghost predicate ResultsCarryNoCalls(es: seq<Entry>) {
    forall e <- es :: KeptResult(es, e) ==> CallSurvives(es, ResultKey(e).value)
  }

  /** Every tool call part of an assistant message has a result entry in the same history. */
  ghost predicate CallsAnswered(es: seq<Entry>) {
    forall e <- es, k: Key :: e.Message? && e.role.Assistant? && CallsIn(e, k) ==> HasResult(es, k)
  }

  /** Every tool result has its call in the same history. */
  ghost predicate ResultsCalled(es: seq<Entry>) {
    forall e <- es :: ResultKey(e).Some? ==> HasCall(es, ResultKey(e).value)
  }

  lemma RepairIn(es: seq<Entry>, e: Entry)
    requires e in es
    ensures Repair(AllCalls(es), AllResults(es), e) in NormalizeToolPairs(es)
  {
    var i :| 0 <= i < |es| && es[i] == e;
    assert NormalizeToolPairs(es)[i] == Repair(AllCalls(es), AllResults(es), e);
  }

  lemma RepairedFrom(es: seq<Entry>, r: Entry) returns (e: Entry)
    requires r in NormalizeToolPairs(es)
    ensures e in es && r == Repair(AllCalls(es), AllResults(es), e)
  {
    var i :| 0 <= i < |es| && NormalizeToolPairs(es)[i] == r;
    e := es[i];
  }

  lemma RepairKeepsKey(calls: set<Key>, results: set<Key>, e: Entry)
    ensures ResultKey(Repair(calls, results, e)) == if IsOrphan(calls, e) then None else ResultKey(e)
  {
  }

  /** Which calls one repaired entry still holds. */
  lemma RepairKeepsCall(calls: set<Key>, results: set<Key>, e: Entry, k: Key)
    ensures CallsIn(Repair(calls, results, e), k)
       <==> CallsIn(e, k) && !IsOrphan(calls, e) && (e.role.Assistant? ==> k in results)
  {
    if e.Message? && e.content.Parts? && e.role.Assistant? && !IsOrphan(calls, e) && e.turnId == k.turnId {
      RepairPartsCalls(results, e.turnId, e.content.parts, k);
    }
  }

  lemma RepairPartsCalls(results: set<Key>, turnId: Option<string>, ps: seq<Part>, k: Key)
    requires turnId == k.turnId
    ensures (exists p <- RepairParts(results, turnId, ps) :: p.ToolCall? && p.callId == k.callId)
       <==> (k in results && exists p <- ps :: p.ToolCall? && p.callId == k.callId)
  {
    var r := RepairParts(results, turnId, ps);
    if k in results && exists p <- ps :: p.ToolCall? && p.callId == k.callId {
      var i :| 0 <= i < |ps| && ps[i].ToolCall? && ps[i].callId == k.callId;
      assert r[i] == ps[i];
      assert r[i] in r;
    }
    if exists p <- r :: p.ToolCall? && p.callId == k.callId {
      var i :| 0 <= i < |r| && r[i].ToolCall? && r[i].callId == k.callId;
      assert r[i] == ps[i] && Key(turnId, ps[i].callId) == k;
      assert ps[i] in ps;
    }
  }

  /** No assistant message is handed over with a call that nobody answers. */
  lemma CallsAreAnswered(es: seq<Entry>)
    ensures CallsAnswered(NormalizeToolPairs(es))
  {
    hide Repair, CallsIn, NormalizeToolPairs, AllCalls, AllResults, ResultKey;
    var r := NormalizeToolPairs(es);
    forall x <- r, k: Key | x.Message? && x.role.Assistant? && CallsIn(x, k) ensures HasResult(r, k) {
      var e := RepairedFrom(es, x);
      RepairKeepsCall(AllCalls(es), AllResults(es), e, k);
      RoleKept(es, e);
      ResultOfCall(es, e, k);
    }
  }

  lemma RoleKept(es: seq<Entry>, e: Entry)
    ensures var x := Repair(AllCalls(es), AllResults(es), e); x.Message? && x.role.Assistant? ==> e.Message? && e.role.Assistant?
  {
  }

  lemma ResultOfCall(es: seq<Entry>, e: Entry, k: Key)
    requires e in es && CallsIn(e, k) && k in AllResults(es)
    ensures HasResult(NormalizeToolPairs(es), k)
  {
    hide Repair, CallsIn, NormalizeToolPairs, AllCalls, AllResults, ResultKey;
    AllResultsIs(es, k);
    var t :| t in es && ResultKey(t) == Some(k);
    AllCallsIs(es, k);
    assert HasCall(es, k);
    RepairKeepsKey(AllCalls(es), AllResults(es), t);
    RepairIn(es, t);
  }

  /** A call that survives is in the repaired history if it has a result. */
  lemma CallKept(es: seq<Entry>, k: Key)
    requires k in AllResults(es)
    ensures HasCall(NormalizeToolPairs(es), k) <==> CallSurvives(es, k)
  {
    hide Repair, CallsIn, NormalizeToolPairs, AllCalls, AllResults, ResultKey, IsOrphan;
    var r := NormalizeToolPairs(es);
    if HasCall(r, k) {
      var x :| x in r && CallsIn(x, k);
      var e := RepairedFrom(es, x);
      RepairKeepsCall(AllCalls(es), AllResults(es), e, k);
    }
    if CallSurvives(es, k) {
      var e :| e in es && CallsIn(e, k) && !IsOrphan(AllCalls(es), e);
      RepairKeepsCall(AllCalls(es), AllResults(es), e, k);
      RepairIn(es, e);
    }
  }

  /** Every kept result keeps its call exactly when no such call is written inside an orphaned result. */
  lemma ResultsAreCalledExactly(es: seq<Entry>)
    ensures ResultsCalled(NormalizeToolPairs(es)) <==> ResultsCarryNoCalls(es)
  {
    hide Repair, CallsIn, NormalizeToolPairs, AllCalls, AllResults, ResultKey, CallSurvives;
    var r := NormalizeToolPairs(es);
    if ResultsCarryNoCalls(es) {
      forall x <- r | ResultKey(x).Some? ensures HasCall(r, ResultKey(x).value) {
        var e := RepairedFrom(es, x);
        RepairKeepsKey(AllCalls(es), AllResults(es), e);
        OneResult(es, e);
      }
    }
    if ResultsCalled(r) {
      forall e <- es | KeptResult(es, e) ensures CallSurvives(es, ResultKey(e).value) {
        AllCallsIs(es, ResultKey(e).value);
        RepairKeepsKey(AllCalls(es), AllResults(es), e);
        RepairIn(es, e);
        OneResult(es, e);
      }
    }
  }

  lemma OneResult(es: seq<Entry>, e: Entry)
    requires e in es && ResultKey(e).Some?
    ensures ResultKey(e).value in AllResults(es)
    ensures HasCall(NormalizeToolPairs(es), ResultKey(e).value) <==> CallSurvives(es, ResultKey(e).value)
    ensures !IsOrphan(AllCalls(es), e) <==> KeptResult(es, e)
  {
    hide Repair, CallsIn, NormalizeToolPairs, AllCalls, AllResults, ResultKey, CallSurvives;
    AllResultsIs(es, ResultKey(e).value);
    CallKept(es, ResultKey(e).value);
    AllCallsIs(es, ResultKey(e).value);
  }

  // ----- Doing it twice -----

  lemma {:induction false} RepairNothing(results: set<Key>, turnId: Option<string>, ps: seq<Part>)
    requires forall p <- ps :: p.ToolCall? ==> Key(turnId, p.callId) in results
    ensures RepairParts(results, turnId, ps) == ps
  {
    if ps != [] {
      RepairNothing(results, turnId, ps[1..]);
      assert ps[0] in ps;
    }
  }

  /** A repaired entry is left alone if it is no orphan and its calls are answered. */
  lemma RepairStable(calls: set<Key>, results: set<Key>, calls': set<Key>, results': set<Key>, e: Entry)
    requires var x := Repair(calls, results, e);
             && !IsOrphan(calls', x)
             && (x.Message? && x.role.Assistant? && x.content.Parts? ==>
                   forall p <- x.content.parts :: p.ToolCall? ==> Key(x.turnId, p.callId) in results')
    ensures Repair(calls', results', Repair(calls, results, e)) == Repair(calls, results, e)
  {
    var x := Repair(calls, results, e);
    if x.Message? && x.role.Assistant? && x.content.Parts? {
      RepairNothing(results', x.turnId, x.content.parts);
    }
  }

  lemma AnsweredParts(es: seq<Entry>, x: Entry)
    requires CallsAnswered(es) && x in es && x.Message? && x.role.Assistant? && x.content.Parts?
    ensures forall p <- x.content.parts :: p.ToolCall? ==> Key(x.turnId, p.callId) in AllResults(es)
  {
    hide AllResults;
    forall p <- x.content.parts | p.ToolCall? ensures Key(x.turnId, p.callId) in AllResults(es) {
      assert CallsIn(x, Key(x.turnId, p.callId));
      AllResultsIs(es, Key(x.turnId, p.callId));
    }
  }

  /** The repair is idempotent exactly when it leaves every kept result its call. */
  lemma IdempotentExactly(es: seq<Entry>)
    ensures NormalizeToolPairs(NormalizeToolPairs(es)) == NormalizeToolPairs(es) <==> ResultsCarryNoCalls(es)
  {
    hide Repair, CallsIn, AllCalls, AllResults, ResultKey, CallSurvives, IsOrphan, ResultsCarryNoCalls, CallsAnswered;
    var r := NormalizeToolPairs(es);
    ResultsAreCalledExactly(es);
    CallsAreAnswered(es);
    if ResultsCalled(r) {
      forall i | 0 <= i < |r| ensures NormalizeToolPairs(r)[i] == r[i] {
        assert r[i] in r;
        NotOrphan(r, r[i]);
        if r[i].Message? && r[i].role.Assistant? && r[i].content.Parts? {
          AnsweredParts(r, r[i]);
        }
        RepairStable(AllCalls(es), AllResults(es), AllCalls(r), AllResults(r), es[i]);
      }
    }
    if NormalizeToolPairs(r) == r {
      forall x <- r | ResultKey(x).Some? ensures HasCall(r, ResultKey(x).value) {
        var i :| 0 <= i < |r| && r[i] == x;
        assert NormalizeToolPairs(r)[i] == Repair(AllCalls(r), AllResults(r), x);
        RepairKeepsKey(AllCalls(r), AllResults(r), x);
        IsCalled(r, x);
      }
    }
  }

  lemma NotOrphan(r: seq<Entry>, x: Entry)
    requires ResultsCalled(r) && x in r
    ensures !IsOrphan(AllCalls(r), x)
  {
    hide AllCalls, ResultKey, HasCall;
    if ResultKey(x).Some? {
      AllCallsIs(r, ResultKey(x).value);
    }
  }

  lemma IsCalled(r: seq<Entry>, x: Entry)
    requires ResultKey(x).Some? && !IsOrphan(AllCalls(r), x)
    ensures HasCall(r, ResultKey(x).value)
  {
    hide AllCalls, ResultKey, HasCall;
    AllCallsIs(r, ResultKey(x).value);
  }

  /** Two results, the first of them holding the call of the second: one pass parts them, a second one repairs. */
  lemma NotIdempotentOnNestedCalls()
    ensures var a := Message("1", None, Tool, Parts([ToolCall("b", "t", None)]), Some("a"), None, None, None, "");
            var b := Message("2", None, Tool, Plain("out"), Some("b"), None, None, None, "");
            NormalizeToolPairs(NormalizeToolPairs([a, b])) != NormalizeToolPairs([a, b])
  {
    var a := Message("1", None, Tool, Parts([ToolCall("b", "t", None)]), Some("a"), None, None, None, "");
    var b := Message("2", None, Tool, Plain("out"), Some("b"), None, None, None, "");
    IdempotentExactly([a, b]);
    hide NormalizeToolPairs;
    var k := Key(None, "b");
    assert ResultKey(a) == Some(Key(None, "a")) && ResultKey(b) == Some(k);
    assert a.content.parts[0] in a.content.parts && CallsIn(a, k);
    assert [a, b][0] in [a, b] && [a, b][1] in [a, b];
    assert HasCall([a, b], k);
    AllCallsIs([a, b], Key(None, "a"));
    assert !HasCall([a, b], Key(None, "a"));
    assert !CallSurvives([a, b], k);
  }

  // ----- Entries as the reader makes them -----

  /** The reader writes tool results as plain text. */
  predicate PlainResults(es: seq<Entry>) {
    forall i :: 0 <= i < |es| && es[i].Message? && es[i].role.Tool? ==> es[i].content.Plain?
  }

  /** So for the reader's entries the repair is idempotent, and leaves no call or result alone. */
  lemma PlainResultsPair(es: seq<Entry>)
    requires PlainResults(es)
    ensures CallsAnswered(NormalizeToolPairs(es)) && ResultsCalled(NormalizeToolPairs(es))
    ensures NormalizeToolPairs(NormalizeToolPairs(es)) == NormalizeToolPairs(es)
  {
    CallsAreAnswered(es);
    ResultsAreCalledExactly(es);
    IdempotentExactly(es);
    hide NormalizeToolPairs, AllCalls, CallsAnswered, ResultsCalled;
    forall e <- es | KeptResult(es, e) ensures CallSurvives(es, ResultKey(e).value) {
      var c :| c in es && CallsIn(c, ResultKey(e).value);
    }
  }
}
