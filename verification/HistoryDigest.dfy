/** The stream of the history digest. */
module HistoryDigest {
  // The stream that `historyReconciliationDigest` of `src/agent-runtime/history.ts` feeds to its hash.

  import opened JsonText
  import opened CanonicalJson
  import opened CanonicalLaws
  import opened CanonicalEquality
  import JsonReading

  const NEWLINE: unit := 10
  const SEQUENCE: Text := [115, 101, 113, 117, 101, 110, 99, 101]

  /** An entry without its page-local sequence number. */
  function Without(fs: seq<Field>, k: Text): seq<Field> {
    if fs == [] then [] else (if fs[0].key == k then [] else [fs[0]]) + Without(fs[1..], k)
  }

  function Content(entry: seq<Field>): Json {
    Obj(Without(entry, SEQUENCE))
  }

  /** `historyReconciliationEntrySignature`. */
  function Signature(cmp: Compare, entry: seq<Field>): Text {
    StableJson(cmp, Content(entry))
  }

  function Stream(cmp: Compare, entries: seq<seq<Field>>): Text {
    if entries == [] then [] else Signature(cmp, entries[0]) + [NEWLINE] + Stream(cmp, entries[1..])
  }

  /** A signature leaves out the member "sequence" and no other, and each line ends with a line feed. */
  lemma {:induction false} LeftOutExactly(fs: seq<Field>, f: Field)
    ensures SEQUENCE == JsonReading.Units("sequence") && [NEWLINE] == ['\n' as int]
    ensures f in Without(fs, SEQUENCE) <==> f in fs && f.key != JsonReading.Units("sequence")
  {
    if fs != [] {
      LeftOutExactly(fs[1..], f);
      assert f in fs <==> f == fs[0] || f in fs[1..];
    }
  }

  /** The loop of `historyReconciliationDigest`, up to what the hash has been given. */
  method FeedHash(cmp: Compare, entries: seq<seq<Field>>) returns (fed: Text)
    ensures fed == Stream(cmp, entries)
  {
    hide Signature;
    fed := [];
    for i := 0 to |entries|
      invariant Stream(cmp, entries) == fed + Stream(cmp, entries[i..])
    {
      assert entries[i..][0] == entries[i] && entries[i..][1..] == entries[i + 1..];
      ghost var before, rest := fed, Stream(cmp, entries[i + 1..]);
      assert before + (Signature(cmp, entries[i]) + [NEWLINE] + rest) == before + Signature(cmp, entries[i]) + [NEWLINE] + rest;
      fed := fed + Signature(cmp, entries[i]);
      fed := fed + [NEWLINE];
    }
    assert fed + [] == fed;
  }

  // ----- No line break inside a signature -----

  ghost predicate Visible(s: Text) {
    forall i :: 0 <= i < |s| ==> s[i] >= 32
  }

  lemma VisibleJoin(a: Text, b: Text)
    requires Visible(a) && Visible(b)
    ensures Visible(a + b)
  {
  }

  lemma {:induction false} PrintVisible(t: Tree)
    ensures Visible(Print(t))
    decreases t, 1
  {
    match t
    case TNull =>
    case TBool(_) =>
    case TNum(n) =>
    case TStr(s) => QuoteVisible(s);
    case TArr(items) =>
      ItemsVisible(items, true);
      hide PrintItems;
      VisibleJoin([LBRACKET], PrintItems(items, true));
      VisibleJoin([LBRACKET] + PrintItems(items, true), [RBRACKET]);
    case TObj(members) =>
      MembersVisible(members, true);
      hide PrintMembers;
      VisibleJoin([LBRACE], PrintMembers(members, true));
      VisibleJoin([LBRACE] + PrintMembers(members, true), [RBRACE]);
  }

  lemma QuoteVisible(s: Text)
    ensures Visible(Quote(s))
  {
    EscapeVisible(s);
  }

  lemma {:induction false} ItemsVisible(items: seq<Tree>, first: bool)
    ensures Visible(PrintItems(items, first))
    decreases items, 0
  {
    if items != [] {
      PrintVisible(items[0]);
      ItemsVisible(items[1..], false);
      hide Print;
      var comma: Text := if first then [] else [COMMA];
      VisibleJoin(comma, Print(items[0]));
      VisibleJoin(comma + Print(items[0]), PrintItems(items[1..], false));
    }
  }

  lemma {:induction false} MembersVisible(ms: seq<Member>, first: bool)
    ensures Visible(PrintMembers(ms, first))
    decreases ms, 0
  {
    if ms != [] {
      PrintVisible(ms[0].value);
      QuoteVisible(ms[0].key);
      MembersVisible(ms[1..], false);
      hide Print, Quote;
      var comma: Text := if first then [] else [COMMA];
      VisibleJoin(Quote(ms[0].key), [COLON]);
      VisibleJoin(Quote(ms[0].key) + [COLON], Print(ms[0].value));
      VisibleJoin(comma, PrintMember(ms[0]));
      VisibleJoin(comma + PrintMember(ms[0]), PrintMembers(ms[1..], false));
    }
  }

  lemma {:induction false} LineUnique(a: Text, b: Text, r: Text, q: Text)
    requires Visible(a) && Visible(b) && a + [NEWLINE] + r == b + [NEWLINE] + q
    ensures a == b && r == q
  {
    var x, y := a + [NEWLINE] + r, b + [NEWLINE] + q;
    assert forall i :: 0 <= i < |a| ==> x[i] == a[i];
    assert forall i :: 0 <= i < |b| ==> y[i] == b[i];
    assert x[|a|] == NEWLINE && y[|b|] == NEWLINE;
    assert x[..|a|] == a && y[..|b|] == b;
    assert x[|a| + 1..] == r && y[|b| + 1..] == q;
  }

  // ----- Equal streams -----

  ghost predicate SameEntries(es: seq<seq<Field>>, fs: seq<seq<Field>>) {
    |es| == |fs| && forall i :: 0 <= i < |es| ==> Same(Content(es[i]), Content(fs[i]))
  }

  ghost predicate ProperEntries(es: seq<seq<Field>>) {
    forall i :: 0 <= i < |es| ==> Proper(Obj(es[i]))
  }

  lemma {:induction false} WithoutProper(fs: seq<Field>, k: Text)
    requires Proper(Obj(fs))
    ensures Proper(Obj(Without(fs, k)))
    ensures forall i :: 0 <= i < |Without(fs, k)| ==> Without(fs, k)[i] in fs && Without(fs, k)[i].key != k
  {
    if fs != [] {
      WithoutProper(fs[1..], k);
    }
  }

  /**
   * Whatever the comparator does with ties, histories that feed the hash the same stream have equally many entries
   * that agree, one by one, in everything but the sequence number and the order of members.
   */
  lemma {:induction false} StreamMeansSame(cmp: Compare, es: seq<seq<Field>>, fs: seq<seq<Field>>)
    requires ProperEntries(es) && ProperEntries(fs) && Stream(cmp, es) == Stream(cmp, fs)
    ensures SameEntries(es, fs)
    decreases |es|
  {
    hide Proper, Same, Content, Signature;
    StreamEmpty(cmp, es);
    StreamEmpty(cmp, fs);
    if es != [] {
      HeadMeansSame(cmp, es[0], fs[0], Stream(cmp, es[1..]), Stream(cmp, fs[1..]));
      StreamMeansSame(cmp, es[1..], fs[1..]);
      EntriesJoin(es, fs);
    }
  }

  lemma EntriesJoin(es: seq<seq<Field>>, fs: seq<seq<Field>>)
    requires es != [] && fs != [] && SameEntries(es[1..], fs[1..]) && Same(Content(es[0]), Content(fs[0]))
    ensures SameEntries(es, fs)
  {
    hide Same, Content;
    forall i | 0 <= i < |es| ensures Same(Content(es[i]), Content(fs[i])) {
      if i > 0 {
        assert es[1..][i - 1] == es[i] && fs[1..][i - 1] == fs[i];
      }
    }
  }

  lemma HeadMeansSame(cmp: Compare, e: seq<Field>, f: seq<Field>, r: Text, q: Text)
    requires Proper(Obj(e)) && Proper(Obj(f))
    requires Signature(cmp, e) + [NEWLINE] + r == Signature(cmp, f) + [NEWLINE] + q
    ensures Same(Content(e), Content(f)) && r == q
  {
    WithoutProper(e, SEQUENCE);
    WithoutProper(f, SEQUENCE);
    hide Proper, Same, Print, Canon, Without, Visible;
    PrintVisible(Canon(cmp, Content(e)));
    PrintVisible(Canon(cmp, Content(f)));
    LineUnique(Signature(cmp, e), Signature(cmp, f), r, q);
    PrintsAlikeMeansSame(cmp, Content(e), Content(f));
  }

  /**
   * With a comparator that never ties two different names the converse holds too: the stream is the same exactly when
   * the entries agree.
   */
  lemma {:induction false} StreamExactly(cmp: Compare, es: seq<seq<Field>>, fs: seq<seq<Field>>)
    requires IsOrder(cmp) && NoTies(cmp) && ProperEntries(es) && ProperEntries(fs)
    ensures Stream(cmp, es) == Stream(cmp, fs) <==> SameEntries(es, fs)
    decreases |es|
  {
    hide IsOrder, NoTies, Proper, Same, Content, Signature;
    if Stream(cmp, es) == Stream(cmp, fs) {
      StreamMeansSame(cmp, es, fs);
    } else if SameEntries(es, fs) && es != [] {
      SameHead(cmp, es[0], fs[0]);
      assert SameEntries(es[1..], fs[1..]);
      StreamExactly(cmp, es[1..], fs[1..]);
      assert false;
    }
  }

  lemma StreamEmpty(cmp: Compare, es: seq<seq<Field>>)
    ensures Stream(cmp, es) == [] <==> es == []
  {
    hide Signature;
  }

  lemma SameHead(cmp: Compare, e: seq<Field>, f: seq<Field>)
    requires IsOrder(cmp) && NoTies(cmp) && Proper(Obj(e)) && Proper(Obj(f)) && Same(Content(e), Content(f))
    ensures Signature(cmp, e) == Signature(cmp, f)
  {
    WithoutProper(e, SEQUENCE);
    WithoutProper(f, SEQUENCE);
    hide IsOrder, NoTies, Proper, Same, StableJson, Without;
    PrintsAlikeExactly(cmp, Content(e), Content(f));
  }
}
