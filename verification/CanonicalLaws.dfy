/** Printed text determines the printed tree. */
module CanonicalLaws {
  // Printed text determines the printed tree: what follows a value can never be read as part of it.

  import opened JsonText
  import opened CanonicalJson

  /** What may follow a value inside a text: nothing, or the character that ends it. */
  predicate Ends(r: Text) {
    r == [] || r[0] == COMMA || r[0] == RBRACKET || r[0] == RBRACE
  }

  /** The first character tells which kind of value is printed. */
  lemma FirstChar(t: Tree)
    ensures var c := Print(t)[0];
            && (t.TNull? <==> c == 110) && (t == TBool(true) <==> c == 116) && (t == TBool(false) <==> c == 102)
            && (t.TNum? <==> NumberChar(c)) && (t.TStr? <==> c == QUOTE)
            && (t.TArr? <==> c == LBRACKET) && (t.TObj? <==> c == LBRACE)
  {
    hide PrintItems, PrintMembers, Escape;
  }

  lemma {:induction false} SpanUnique(a: Text, b: Text, r: Text, q: Text)
    requires (forall i :: 0 <= i < |a| ==> NumberChar(a[i])) && (forall i :: 0 <= i < |b| ==> NumberChar(b[i]))
    requires a + r == b + q && Ends(r) && Ends(q)
    ensures a == b && r == q
  {
    if a == [] || b == [] {
      SpanEnds(a, b, r, q);
    } else {
      assert (a + r)[0] == a[0] && (b + q)[0] == b[0];
      assert (a + r)[1..] == a[1..] + r && (b + q)[1..] == b[1..] + q;
      SpanUnique(a[1..], b[1..], r, q);
      assert a == [a[0]] + a[1..] && b == [b[0]] + b[1..];
    }
  }

  lemma SpanEnds(a: Text, b: Text, r: Text, q: Text)
    requires (forall i :: 0 <= i < |a| ==> NumberChar(a[i])) && (forall i :: 0 <= i < |b| ==> NumberChar(b[i]))
    requires a + r == b + q && Ends(r) && Ends(q) && (a == [] || b == [])
    ensures a == b && r == q
  {
    NumberFirst(a, r);
    NumberFirst(b, q);
    assert [] + r == r && [] + q == q;
  }

  lemma NumberFirst(a: Text, r: Text)
    requires (forall i :: 0 <= i < |a| ==> NumberChar(a[i])) && Ends(r)
    ensures a + r != [] && NumberChar((a + r)[0]) <==> a != []
  {
  }

  lemma Strip(c: unit, a: Text, b: Text)
    requires [c] + a == [c] + b
    ensures a == b
  {
    assert ([c] + a)[1..] == a && ([c] + b)[1..] == b;
  }

  lemma StripPrefix(p: Text, a: Text, b: Text)
    requires p + a == p + b
    ensures a == b
  {
    assert (p + a)[|p|..] == a && (p + b)[|p|..] == b;
  }

  /** Unique readability: equal texts mean equal trees and equal remainders. */
  lemma {:induction false} PrintUnique(t: Tree, u: Tree, r: Text, q: Text)
    requires Print(t) + r == Print(u) + q && Ends(r) && Ends(q)
    ensures t == u && r == q
    decreases t, 1
  {
    hide Print, PrintItems, PrintMembers;
    FirstChar(t);
    FirstChar(u);
    assert (Print(t) + r)[0] == Print(t)[0] && (Print(u) + q)[0] == Print(u)[0];
    match t
    case TNull => StripPrefix(Print(t), r, q);
    case TBool(_) => StripPrefix(Print(t), r, q);
    case TNum(n) => NumUnique(n, u.text, r, q);
    case TStr(s) => StrUnique(s, u.s, r, q);
    case TArr(items) =>
      ArrText(items, r);
      ArrText(u.items, q);
      Strip(LBRACKET, PrintItems(items, true) + ([RBRACKET] + r), PrintItems(u.items, true) + ([RBRACKET] + q));
      ItemsUnique(items, u.items, true, r, q);
    case TObj(members) =>
      ObjText(members, r);
      ObjText(u.members, q);
      Strip(LBRACE, PrintMembers(members, true) + ([RBRACE] + r), PrintMembers(u.members, true) + ([RBRACE] + q));
      MembersUnique(members, u.members, true, r, q);
  }

  lemma NumUnique(n: Numeral, m: Numeral, r: Text, q: Text)
    requires Print(TNum(n)) + r == Print(TNum(m)) + q && Ends(r) && Ends(q)
    ensures n == m && r == q
  {
    SpanUnique(n, m, r, q);
  }

  lemma StrUnique(s: Text, v: Text, r: Text, q: Text)
    requires Print(TStr(s)) + r == Print(TStr(v)) + q
    ensures s == v && r == q
  {
    hide Quote;
    QuoteUnique(s, v, r, q);
  }

  lemma ArrText(items: seq<Tree>, r: Text)
    ensures Print(TArr(items)) + r == [LBRACKET] + (PrintItems(items, true) + ([RBRACKET] + r))
  {
    hide PrintItems;
  }

  lemma ObjText(members: seq<Member>, r: Text)
    ensures Print(TObj(members)) + r == [LBRACE] + (PrintMembers(members, true) + ([RBRACE] + r))
  {
    hide PrintMembers;
  }

  /** The text of a list of items, one item at a time. */
  lemma ItemsText(items: seq<Tree>, first: bool, r: Text)
    ensures items == [] ==> PrintItems(items, first) + ([RBRACKET] + r) == [RBRACKET] + r
    ensures items != [] ==>
      var rest := PrintItems(items[1..], false) + ([RBRACKET] + r);
      && PrintItems(items, first) + ([RBRACKET] + r) == (if first then [] else [COMMA]) + (Print(items[0]) + rest)
      && Ends(rest)
  {
    hide Print;
    if items == [] {
      assert [] + ([RBRACKET] + r) == [RBRACKET] + r;
    } else {
      ItemsEnd(items[1..], r);
      hide Ends;
      Regroup(if first then [] else [COMMA], Print(items[0]), PrintItems(items[1..], false), [RBRACKET] + r);
    }
  }

  lemma Regroup(a: Text, b: Text, c: Text, d: Text)
    ensures a + b + c + d == a + (b + (c + d))
  {
  }

  lemma ItemsEnd(items: seq<Tree>, r: Text)
    ensures Ends(PrintItems(items, false) + ([RBRACKET] + r))
  {
    hide Print;
    if items != [] {
      assert PrintItems(items, false)[0] == COMMA;
    }
  }

  lemma {:induction false} ItemsUnique(xs: seq<Tree>, ys: seq<Tree>, first: bool, r: Text, q: Text)
    requires PrintItems(xs, first) + ([RBRACKET] + r) == PrintItems(ys, first) + ([RBRACKET] + q)
    ensures xs == ys && r == q
    decreases xs, 0
  {
    hide Print, PrintItems;
    ItemsText(xs, first, r);
    ItemsText(ys, first, q);
    ItemsStart(xs, first, r);
    ItemsStart(ys, first, q);
    if xs == [] {
      Strip(RBRACKET, r, q);
    } else {
      var x, y := PrintItems(xs[1..], false) + ([RBRACKET] + r), PrintItems(ys[1..], false) + ([RBRACKET] + q);
      StripPrefix(if first then [] else [COMMA], Print(xs[0]) + x, Print(ys[0]) + y);
      PrintUnique(xs[0], ys[0], x, y);
      ItemsUnique(xs[1..], ys[1..], false, r, q);
      assert xs == [xs[0]] + xs[1..] && ys == [ys[0]] + ys[1..];
    }
  }

  /** A list ends with its bracket, and no item starts with one. */
  lemma ItemsStart(xs: seq<Tree>, first: bool, r: Text)
    ensures (PrintItems(xs, first) + ([RBRACKET] + r))[0] == RBRACKET <==> xs == []
  {
    hide Print;
    if xs != [] {
      FirstChar(xs[0]);
      ItemsText(xs, first, r);
    }
  }

  lemma MembersText(ms: seq<Member>, first: bool, r: Text)
    ensures ms == [] ==> PrintMembers(ms, first) + ([RBRACE] + r) == [RBRACE] + r
    ensures ms != [] ==>
      var rest := PrintMembers(ms[1..], false) + ([RBRACE] + r);
      && PrintMembers(ms, first) + ([RBRACE] + r)
         == (if first then [] else [COMMA]) + (Quote(ms[0].key) + ([COLON] + (Print(ms[0].value) + rest)))
      && Ends(rest)
  {
    hide Print, Quote, PrintMember;
    if ms == [] {
      assert [] + ([RBRACE] + r) == [RBRACE] + r;
    } else {
      MembersEnd(ms[1..], r);
      hide Ends;
      var rest := PrintMembers(ms[1..], false);
      Regroup(if first then [] else [COMMA], PrintMember(ms[0]), rest, [RBRACE] + r);
      MemberText(ms[0], rest + ([RBRACE] + r));
    }
  }

  lemma MemberText(m: Member, r: Text)
    ensures PrintMember(m) + r == Quote(m.key) + ([COLON] + (Print(m.value) + r))
  {
    hide Print, Quote;
  }

  lemma MembersEnd(ms: seq<Member>, r: Text)
    ensures Ends(PrintMembers(ms, false) + ([RBRACE] + r))
  {
    hide PrintMember;
    if ms != [] {
      assert PrintMembers(ms, false)[0] == COMMA;
    }
  }

  lemma {:induction false} MembersUnique(xs: seq<Member>, ys: seq<Member>, first: bool, r: Text, q: Text)
    requires PrintMembers(xs, first) + ([RBRACE] + r) == PrintMembers(ys, first) + ([RBRACE] + q)
    ensures xs == ys && r == q
    decreases xs, 0
  {
    hide Print, PrintMembers, Quote;
    MembersText(xs, first, r);
    MembersText(ys, first, q);
    MembersStart(xs, first, r);
    MembersStart(ys, first, q);
    if xs == [] {
      Strip(RBRACE, r, q);
    } else {
      var x, y := PrintMembers(xs[1..], false) + ([RBRACE] + r), PrintMembers(ys[1..], false) + ([RBRACE] + q);
      StripPrefix(if first then [] else [COMMA], Quote(xs[0].key) + ([COLON] + (Print(xs[0].value) + x)),
                  Quote(ys[0].key) + ([COLON] + (Print(ys[0].value) + y)));
      QuoteUnique(xs[0].key, ys[0].key, [COLON] + (Print(xs[0].value) + x), [COLON] + (Print(ys[0].value) + y));
      Strip(COLON, Print(xs[0].value) + x, Print(ys[0].value) + y);
      PrintUnique(xs[0].value, ys[0].value, x, y);
      MembersUnique(xs[1..], ys[1..], false, r, q);
      assert xs == [xs[0]] + xs[1..] && ys == [ys[0]] + ys[1..];
    }
  }

  lemma MembersStart(xs: seq<Member>, first: bool, r: Text)
    ensures (PrintMembers(xs, first) + ([RBRACE] + r))[0] == RBRACE <==> xs == []
  {
    hide Print, Escape;
    if xs != [] {
      MembersText(xs, first, r);
    }
  }

  /** The printer is injective on canonical trees. */
  lemma PrintInjective(t: Tree, u: Tree)
    requires Print(t) == Print(u)
    ensures t == u
  {
    hide Print;
    assert Print(t) + [] == Print(u) + [];
    PrintUnique(t, u, [], []);
  }
}
