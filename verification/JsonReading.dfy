/** Reading printed JSON back. */
module JsonReading {
  // A reader of JSON texts after RFC 8259, and that it gives back what was printed. It knows nothing of the printer.

  import opened JsonText
  import opened CanonicalJson
  import opened CanonicalLaws
  import opened CanonicalEquality

  datatype Option<+T> = None | Some(value: T)

  function UnitOf(c: char): unit {
    if c < 128 as char then c as int else 0
  }

  /** The code units of a text in ASCII. */
  function Units(s: string): Text {
    seq(|s|, i requires 0 <= i < |s| => UnitOf(s[i]))
  }

  // ----- Strings: section 7 -----

  function HexValue(c: unit): Option<int> {
    if 48 <= c <= 57 then Some(c - 48)
    else if 97 <= c <= 102 then Some(c - 87)
    else if 65 <= c <= 70 then Some(c - 55)
    else None
  }

  /** What a two-character escape stands for. */
  function Escaped(c: unit): Option<unit> {
    if c == 34 || c == 92 || c == 47 then Some(c)
    else if c == 98 then Some(8)
    else if c == 102 then Some(12)
    else if c == 110 then Some(10)
    else if c == 114 then Some(13)
    else if c == 116 then Some(9)
    else None
  }

  function FourHex(t: Text): Option<unit>
    requires |t| >= 4
  {
    var a, b, c, d := HexValue(t[0]), HexValue(t[1]), HexValue(t[2]), HexValue(t[3]);
    if a.None? || b.None? || c.None? || d.None? then None
    else
      HexRange(t);
      Some(a.value * 4096 + b.value * 256 + c.value * 16 + d.value)
  }

  lemma HexRange(t: Text)
    requires |t| >= 4 && forall i :: 0 <= i < 4 ==> HexValue(t[i]).Some?
    ensures 0 <= HexValue(t[0]).value * 4096 + HexValue(t[1]).value * 256 + HexValue(t[2]).value * 16
                 + HexValue(t[3]).value < 0x1_0000
  {
    assert forall i :: 0 <= i < 4 ==> 0 <= HexValue(t[i]).value < 16;
  }

  /** The rest of a string after its opening quote: what it says, and what follows its closing quote. */
  function ReadChars(t: Text): (r: Option<(Text, Text)>)
    ensures r.Some? ==> |r.value.1| < |t|
    decreases |t|
  {
    if t == [] then None
    else if t[0] == 34 then Some(([], t[1..]))
    else if t[0] < 32 then None
    else if t[0] != 92 then Prepend(t[0], ReadChars(t[1..]))
    else if |t| < 2 then None
    else if t[1] != 117 then
      if Escaped(t[1]).None? then None else Prepend(Escaped(t[1]).value, ReadChars(t[2..]))
    else if |t| < 6 then None
    else if FourHex(t[2..]).None? then None
    else Prepend(FourHex(t[2..]).value, ReadChars(t[6..]))
  }

  function Prepend(u: unit, r: Option<(Text, Text)>): (p: Option<(Text, Text)>)
    ensures p.Some? <==> r.Some?
    ensures p.Some? ==> p.value.1 == r.value.1
  {
    if r.None? then None else Some(([u] + r.value.0, r.value.1))
  }

  // ----- Values: sections 3 to 6 -----

  /** The longest start of a text in number characters. */
  function Span(t: Text): (n: nat)
    ensures n <= |t| && forall i :: 0 <= i < n ==> NumberChar(t[i])
    ensures n < |t| ==> !NumberChar(t[n])
  {
    if t == [] || !NumberChar(t[0]) then 0 else 1 + Span(t[1..])
  }

  function ReadValue(t: Text): (r: Option<(Tree, Text)>)
    ensures r.Some? ==> |r.value.1| < |t|
    decreases |t|, 0
  {
    if t == [] then None
    else if Units("null") <= t then Some((TNull, t[4..]))
    else if Units("true") <= t then Some((TBool(true), t[4..]))
    else if Units("false") <= t then Some((TBool(false), t[5..]))
    else if NumberChar(t[0]) then Some((TNum(t[..Span(t)]), t[Span(t)..]))
    else if t[0] == '"' as int then
      var s := ReadChars(t[1..]);
      if s.None? then None else Some((TStr(s.value.0), s.value.1))
    else if t[0] == '[' as int then
      if |t| > 1 && t[1] == ']' as int then Some((TArr([]), t[2..]))
      else
        var s := ReadItems(t[1..]);
        if s.None? then None else Some((TArr(s.value.0), s.value.1))
    else if t[0] == '{' as int then
      if |t| > 1 && t[1] == '}' as int then Some((TObj([]), t[2..]))
      else
        var s := ReadMembers(t[1..]);
        if s.None? then None else Some((TObj(s.value.0), s.value.1))
    else None
  }

  /** One or more values with commas between them, up to the closing bracket. */
  function ReadItems(t: Text): (r: Option<(seq<Tree>, Text)>)
    ensures r.Some? ==> |r.value.1| < |t|
    decreases |t|, 1
  {
    var v := ReadValue(t);
    if v.None? || v.value.1 == [] then None
    else if v.value.1[0] == ']' as int then Some(([v.value.0], v.value.1[1..]))
    else if v.value.1[0] != ',' as int then None
    else
      var rest := ReadItems(v.value.1[1..]);
      if rest.None? then None else Some(([v.value.0] + rest.value.0, rest.value.1))
  }

  /** One or more members with commas between them, up to the closing brace. */
  function ReadMembers(t: Text): (r: Option<(seq<Member>, Text)>)
    ensures r.Some? ==> |r.value.1| < |t|
    decreases |t|, 1
  {
    if t == [] || t[0] != '"' as int then None
    else
      var k := ReadChars(t[1..]);
      if k.None? || k.value.1 == [] || k.value.1[0] != ':' as int then None
      else
        var v := ReadValue(k.value.1[1..]);
        if v.None? || v.value.1 == [] then None
        else
          var m := Member(k.value.0, v.value.0);
          if v.value.1[0] == '}' as int then Some(([m], v.value.1[1..]))
          else if v.value.1[0] != ',' as int then None
          else
            var rest := ReadMembers(v.value.1[1..]);
            if rest.None? then None else Some(([m] + rest.value.0, rest.value.1))
  }

  // ----- Strings read back -----

  lemma HexReads(u: unit, r: Text)
    ensures var t := Hex(u) + r; |t| >= 6 && FourHex(t[2..]) == Some(u) && t[6..] == r && t[0] == 92 && t[1] == 117
  {
    var t := Hex(u) + r;
    assert t[2..][0] == HexDigit(u / 4096) && t[2..][1] == HexDigit(u / 256 % 16);
    assert t[2..][2] == HexDigit(u / 16 % 16) && t[2..][3] == HexDigit(u % 16);
    assert forall d :: 0 <= d < 16 ==> HexValue(HexDigit(d)) == Some(d);
    Digits(u);
  }

  lemma PlainReads(u: unit, r: Text)
    requires u >= 32 && u != 34 && u != 92
    ensures ReadChars([u] + r) == Prepend(u, ReadChars(r))
  {
    assert ([u] + r)[1..] == r;
  }

  lemma ShortReads(u: unit, r: Text)
    requires ShortEscape(u) != 0
    ensures ReadChars([BACKSLASH, ShortEscape(u)] + r) == Prepend(u, ReadChars(r))
  {
    var t := [BACKSLASH, ShortEscape(u)] + r;
    assert t[2..] == r && t[0] == 92 && t[1] == ShortEscape(u);
  }

  lemma UnitReads(u: unit, r: Text)
    ensures ReadChars(EscapeUnit(u) + r) == Prepend(u, ReadChars(r))
  {
    if ShortEscape(u) != 0 {
      ShortReads(u, r);
    } else if u < 32 || High(u) || Low(u) {
      HexReads(u, r);
      hide Hex, FourHex;
    } else {
      PlainReads(u, r);
    }
  }

  lemma NoCharsRead(r: Text)
    ensures ReadChars(Escape([]) + [QUOTE] + r) == Some(([], r))
  {
    assert Escape([]) + [QUOTE] + r == [QUOTE] + r;
    assert ([QUOTE] + r)[1..] == r;
  }

  /** A surrogate pair is printed as it is. */
  lemma PairReads(s: Text, rest: Text, r: Text)
    requires Pair(s) && ReadChars(rest) == Some((s[2..], r))
    ensures ReadChars(s[..2] + rest) == Some((s, r))
  {
    hide ReadChars;
    PlainReads(s[0], [s[1]] + rest);
    PlainReads(s[1], rest);
    assert s[..2] + rest == [s[0]] + ([s[1]] + rest);
    assert [s[0]] + ([s[1]] + s[2..]) == s;
  }

  lemma SingleReads(s: Text, rest: Text, r: Text)
    requires s != [] && ReadChars(rest) == Some((s[1..], r))
    ensures ReadChars(EscapeUnit(s[0]) + rest) == Some((s, r))
  {
    hide ReadChars, EscapeUnit;
    UnitReads(s[0], rest);
    assert [s[0]] + s[1..] == s;
  }

  lemma {:induction false} CharsRead(s: Text, r: Text)
    ensures ReadChars(Escape(s) + [QUOTE] + r) == Some((s, r))
    decreases |s|
  {
    hide Escape, ReadChars, EscapeUnit;
    if s == [] {
      NoCharsRead(r);
    } else {
      var rest := Escape(s[Taken(s)..]) + [QUOTE] + r;
      EscapeStep(s, r);
      CharsRead(s[Taken(s)..], r);
      if Pair(s) {
        PairReads(s, rest, r);
      } else {
        SingleReads(s, rest, r);
      }
    }
  }

  // ----- Values read back -----

  lemma LiteralUnits()
    ensures Units("null") == NULL && Units("true") == TRUE && Units("false") == FALSE
  {
  }

  lemma LiteralReads(t: Tree, r: Text)
    requires t.TNull? || t.TBool?
    ensures ReadValue(Print(t) + r) == Some((t, r))
  {
    LiteralUnits();
    var x := Print(t) + r;
    hide Units;
    assert x[..|Print(t)|] == Print(t) && x[|Print(t)|..] == r;
    assert x[0] == Print(t)[0];
    assert Units("null")[0] == 110 && Units("true")[0] == 116;
  }

  /** A value that is no literal is read by its first character. */
  lemma NoLiteral(t: Text)
    requires t != [] && t[0] !in {110, 116, 102}
    ensures !(Units("null") <= t) && !(Units("true") <= t) && !(Units("false") <= t)
  {
    LiteralUnits();
    hide Units;
    assert Units("null")[0] == 110 && Units("true")[0] == 116 && Units("false")[0] == 102;
  }

  lemma {:induction false} SpanIs(n: Text, r: Text)
    requires (forall i :: 0 <= i < |n| ==> NumberChar(n[i])) && Ends(r)
    ensures Span(n + r) == |n|
  {
    if n == [] {
      assert n + r == r;
    } else {
      assert (n + r)[0] == n[0] && (n + r)[1..] == n[1..] + r;
      SpanIs(n[1..], r);
    }
  }

  lemma NumberReads(n: Numeral, r: Text)
    requires Ends(r)
    ensures ReadValue(n + r) == Some((TNum(n), r))
  {
    SpanIs(n, r);
    assert (n + r)[0] == n[0];
    NoLiteral(n + r);
    hide Units, Span;
    assert (n + r)[..|n|] == n && (n + r)[|n|..] == r;
  }

  lemma StringReads(s: Text, r: Text)
    ensures ReadValue(Quote(s) + r) == Some((TStr(s), r))
  {
    var t := Quote(s) + r;
    assert t[1..] == Escape(s) + [QUOTE] + r && t[0] == 34;
    CharsRead(s, r);
    NoLiteral(t);
    hide Units, Escape, ReadChars;
  }

  lemma ItemsComma(items: seq<Tree>)
    requires items != []
    ensures PrintItems(items, false) == [COMMA] + PrintItems(items, true)
  {
    hide Print;
    var rest := PrintItems(items[1..], false);
    assert [COMMA] + Print(items[0]) + rest == [COMMA] + ([] + Print(items[0]) + rest);
  }

  lemma MembersComma(ms: seq<Member>)
    requires ms != []
    ensures PrintMembers(ms, false) == [COMMA] + PrintMembers(ms, true)
  {
    hide PrintMember;
    var rest := PrintMembers(ms[1..], false);
    assert [COMMA] + PrintMember(ms[0]) + rest == [COMMA] + ([] + PrintMember(ms[0]) + rest);
  }

  /** What the reader makes of a list whose first value it has read. */
  lemma ItemsStep(x: Text, first: Tree, rest: Text)
    requires ReadValue(x) == Some((first, rest)) && rest != []
    ensures rest[0] == RBRACKET ==> ReadItems(x) == Some(([first], rest[1..]))
    ensures rest[0] == COMMA && ReadItems(rest[1..]).Some? ==>
              ReadItems(x) == Some(([first] + ReadItems(rest[1..]).value.0, ReadItems(rest[1..]).value.1))
  {
    hide ReadValue;
  }

  lemma MembersStep(x: Text, key: Text, value: Tree, after: Text, rest: Text)
    requires x != [] && x[0] == QUOTE && ReadChars(x[1..]) == Some((key, [COLON] + after))
    requires ReadValue(after) == Some((value, rest)) && rest != []
    ensures rest[0] == RBRACE ==> ReadMembers(x) == Some(([Member(key, value)], rest[1..]))
    ensures rest[0] == COMMA && ReadMembers(rest[1..]).Some? ==>
              ReadMembers(x)
              == Some(([Member(key, value)] + ReadMembers(rest[1..]).value.0, ReadMembers(rest[1..]).value.1))
  {
    hide ReadValue, ReadChars;
    assert ([COLON] + after)[1..] == after;
  }

  /** Reading gives back what was printed, and leaves what follows. */
  lemma {:induction false} ValueReads(t: Tree, r: Text)
    requires Ends(r)
    ensures ReadValue(Print(t) + r) == Some((t, r))
    decreases t, 1
  {
    match t
    case TNull => LiteralReads(t, r);
    case TBool(_) => LiteralReads(t, r);
    case TNum(n) => NumberReads(n, r);
    case TStr(s) => StringReads(s, r);
    case TArr(items) =>
      hide ReadValue, Print, PrintItems;
      if items != [] {
        ItemsRead(items, r);
      }
      ListReads(items, r);
    case TObj(members) =>
      hide ReadValue, Print, PrintMembers;
      if members != [] {
        MembersRead(members, r);
      }
      ObjectReads(members, r);
  }

  lemma ListReads(items: seq<Tree>, r: Text)
    requires items != [] ==> ReadItems(PrintItems(items, true) + ([RBRACKET] + r)) == Some((items, r))
    ensures ReadValue(Print(TArr(items)) + r) == Some((TArr(items), r))
  {
    var x := PrintItems(items, true) + ([RBRACKET] + r);
    ArrText(items, r);
    ItemsStart(items, true, r);
    hide ReadItems, Print;
    var t := Print(TArr(items)) + r;
    assert t[0] == LBRACKET && t[1..] == x && t[1] == x[0];
    NoLiteral(t);
    hide Units;
    if items == [] {
      assert x == [RBRACKET] + r && t[2..] == r;
    }
  }

  lemma ObjectReads(ms: seq<Member>, r: Text)
    requires ms != [] ==> ReadMembers(PrintMembers(ms, true) + ([RBRACE] + r)) == Some((ms, r))
    ensures ReadValue(Print(TObj(ms)) + r) == Some((TObj(ms), r))
  {
    var x := PrintMembers(ms, true) + ([RBRACE] + r);
    ObjText(ms, r);
    MembersFirst(ms, r);
    hide ReadMembers, Print;
    var t := Print(TObj(ms)) + r;
    assert t[0] == LBRACE && t[1..] == x && t[1] == x[0];
    NoLiteral(t);
    hide Units;
    if ms == [] {
      assert x == [RBRACE] + r && t[2..] == r;
    }
  }

  /** An object's text goes on with a quote, unless it has no members. */
  lemma MembersFirst(ms: seq<Member>, r: Text)
    ensures (PrintMembers(ms, true) + ([RBRACE] + r))[0] == if ms == [] then RBRACE else QUOTE
  {
    if ms != [] {
      MembersText(ms, true, r);
      var rest := PrintMembers(ms[1..], false) + ([RBRACE] + r);
      hide PrintMembers, Print, Escape;
      assert (Quote(ms[0].key) + ([COLON] + (Print(ms[0].value) + rest)))[0] == QUOTE;
      assert [] + (Quote(ms[0].key) + ([COLON] + (Print(ms[0].value) + rest)))
          == Quote(ms[0].key) + ([COLON] + (Print(ms[0].value) + rest));
    }
  }

  lemma {:induction false} ItemsRead(items: seq<Tree>, r: Text)
    requires items != []
    ensures ReadItems(PrintItems(items, true) + ([RBRACKET] + r)) == Some((items, r))
    decreases items, 0
  {
    hide ReadValue, ReadItems, Print, PrintItems, Ends;
    var x, rest := PrintItems(items, true) + ([RBRACKET] + r), PrintItems(items[1..], false) + ([RBRACKET] + r);
    ItemsText(items, true, r);
    ItemsText(items[1..], false, r);
    ValueReads(items[0], rest);
    NoneBefore(Print(items[0]) + rest);
    if items[1..] == [] {
      NoneBefore(r);
      assert rest[1..] == r && items == [items[0]];
    } else {
      ItemsComma(items[1..]);
      ItemsRead(items[1..], r);
      AfterComma(PrintItems(items[1..], true), [RBRACKET] + r, rest);
      assert items == [items[0]] + items[1..];
    }
    ItemsStep(x, items[0], rest);
  }

  lemma NoneBefore(x: Text)
    ensures [] + x == x
  {
  }

  lemma AfterComma(a: Text, b: Text, rest: Text)
    requires rest == [COMMA] + a + b
    ensures rest != [] && rest[0] == COMMA && rest[1..] == a + b
  {
  }

  lemma {:induction false} MembersRead(ms: seq<Member>, r: Text)
    requires ms != []
    ensures ReadMembers(PrintMembers(ms, true) + ([RBRACE] + r)) == Some((ms, r))
    decreases ms, 0
  {
    hide ReadValue, ReadMembers, ReadChars, Print, PrintMembers, PrintMember, Quote, Ends;
    var x, rest := PrintMembers(ms, true) + ([RBRACE] + r), PrintMembers(ms[1..], false) + ([RBRACE] + r);
    var after := Print(ms[0].value) + rest;
    MembersText(ms, true, r);
    MembersText(ms[1..], false, r);
    ValueReads(ms[0].value, rest);
    NoneBefore(Quote(ms[0].key) + ([COLON] + after));
    KeyReads(ms[0].key, [COLON] + after);
    if ms[1..] == [] {
      assert rest[1..] == r && ms == [ms[0]];
    } else {
      MembersComma(ms[1..]);
      MembersRead(ms[1..], r);
      AfterComma(PrintMembers(ms[1..], true), [RBRACE] + r, rest);
      assert ms == [ms[0]] + ms[1..];
    }
    MembersStep(x, ms[0].key, ms[0].value, after, rest);
  }

  lemma KeyReads(key: Text, after: Text)
    ensures var x := Quote(key) + after; x[0] == QUOTE && ReadChars(x[1..]) == Some((key, after))
  {
    var x := Quote(key) + after;
    assert x[1..] == Escape(key) + [QUOTE] + after;
    CharsRead(key, after);
  }

  // ----- What the text says -----

  /** The tree says what the value is: an object has its defined members, each once, in the order of their names. */
  ghost predicate Says(cmp: Compare, t: Tree, v: Json)
    decreases t
  {
    match v
    case Null => t.TNull?
    case Bool(b) => t == TBool(b)
    case Num(n) => t == TNum(n)
    case Str(s) => t == TStr(s)
    case Arr(items) => t.TArr? && |t.items| == |items| && forall i :: 0 <= i < |items| ==> Says(cmp, t.items[i], items[i])
    case Obj(fields) =>
      && t.TObj? && Sorted(cmp, t.members) && DistinctKeys(t.members)
      && (forall i :: 0 <= i < |t.members| ==> SaysMember(cmp, t.members[i], fields))
      && (forall f <- fields :: f.Defined? ==> exists m <- t.members :: m.key == f.key)
  }

  ghost predicate SaysMember(cmp: Compare, m: Member, fields: seq<Field>)
    decreases m
  {
    exists i :: 0 <= i < |fields| && fields[i].Defined? && fields[i].key == m.key && Says(cmp, m.value, fields[i].value)
  }

  lemma {:induction false} CanonSays(cmp: Compare, v: Json)
    requires IsOrder(cmp) && Proper(v)
    ensures Says(cmp, Canon(cmp, v), v)
    decreases v
  {
    match v
    case Arr(items) =>
      forall i | 0 <= i < |items| ensures Says(cmp, CanonItems(cmp, items)[i], items[i]) {
        CanonSays(cmp, items[i]);
      }
    case Obj(fields) =>
      SortSorts(cmp, Members(cmp, fields));
      MembersDistinct(cmp, fields);
      SortDistinct(cmp, Members(cmp, fields));
      var ms := Sort(cmp, Members(cmp, fields));
      hide IsOrder, Sort, Says, Canon;
      forall i | 0 <= i < |ms| ensures SaysMember(cmp, ms[i], fields) {
        SortMembers(cmp, Members(cmp, fields), ms[i]);
        MembersAre(cmp, fields, ms[i]);
        var j :| 0 <= j < |fields| && fields[j].Defined? && ms[i] == Member(fields[j].key, Canon(cmp, fields[j].value));
        CanonSays(cmp, fields[j].value);
      }
      forall f <- fields | f.Defined? ensures exists m <- ms :: m.key == f.key {
        var j :| 0 <= j < |fields| && fields[j] == f;
        FieldMember(cmp, fields, j);
        SortMembers(cmp, Members(cmp, fields), Member(f.key, Canon(cmp, f.value)));
        assert Member(f.key, Canon(cmp, f.value)) in ms;
      }
      ObjectSays(cmp, ms, fields);
      CanonObject(cmp, fields);
    case _ =>
  }

  lemma CanonObject(cmp: Compare, fields: seq<Field>)
    ensures Canon(cmp, Obj(fields)) == TObj(Sort(cmp, Members(cmp, fields)))
  {
  }

  lemma ObjectSays(cmp: Compare, ms: seq<Member>, fields: seq<Field>)
    requires Sorted(cmp, ms) && DistinctKeys(ms)
    requires forall i :: 0 <= i < |ms| ==> SaysMember(cmp, ms[i], fields)
    requires forall f <- fields :: f.Defined? ==> exists m <- ms :: m.key == f.key
    ensures Says(cmp, TObj(ms), Obj(fields))
  {
    hide SaysMember, Sorted, DistinctKeys;
  }

  /** A signature is a JSON text that says the value: any reader of JSON gets it back, with its members in order. */
  lemma SignatureReads(cmp: Compare, v: Json)
    requires IsOrder(cmp) && Proper(v)
    ensures var r := ReadValue(StableJson(cmp, v)); r.Some? && r.value.1 == [] && Says(cmp, r.value.0, v)
  {
    CanonSays(cmp, v);
    hide Canon, Print, ReadValue, Says;
    ValueReads(Canon(cmp, v), []);
    assert Print(Canon(cmp, v)) + [] == Print(Canon(cmp, v));
  }
}
