/** `JSON.stringify` on strings, over UTF-16 code units: section 7 of RFC 8259 with the escapes ECMAScript
    chooses, lone surrogates included. */
module JsonText {

  type unit = x: int | 0 <= x < 0x1_0000

  type Text = seq<unit>

  const QUOTE: unit := 34
  const BACKSLASH: unit := 92
  const LOWER_U: unit := 117

  predicate High(u: unit) {
    0xD800 <= u < 0xDC00
  }

  predicate Low(u: unit) {
    0xDC00 <= u < 0xE000
  }

  predicate Pair(s: Text) {
    |s| >= 2 && High(s[0]) && Low(s[1])
  }

  function HexDigit(d: int): unit
    requires 0 <= d < 16
  {
    if d < 10 then 48 + d else 87 + d
  }

  /** `\u` and four lower-case hexadecimal digits. */
  function Hex(u: unit): Text {
    [BACKSLASH, LOWER_U, HexDigit(u / 4096), HexDigit(u / 256 % 16), HexDigit(u / 16 % 16), HexDigit(u % 16)]
  }

  /** The letter of a two-character escape, or 0. */
  function ShortEscape(u: unit): unit {
    if u == QUOTE || u == BACKSLASH then u
    else if u == 8 then 98
    else if u == 9 then 116
    else if u == 10 then 110
    else if u == 12 then 102
    else if u == 13 then 114
    else 0
  }

  /** One code unit that is not part of a surrogate pair. */
  function EscapeUnit(u: unit): (t: Text)
    ensures t != [] && t[0] != QUOTE
  {
    if ShortEscape(u) != 0 then [BACKSLASH, ShortEscape(u)]
    else if u < 32 || High(u) || Low(u) then Hex(u)
    else [u]
  }

  /** How many units the first printed piece stands for. */
  function Taken(s: Text): (n: nat)
    requires s != []
    ensures 1 <= n <= |s|
  {
    if Pair(s) then 2 else 1
  }

  function Piece(s: Text): (t: Text)
    requires s != []
    ensures t != [] && t[0] != QUOTE
  {
    if Pair(s) then s[..2] else EscapeUnit(s[0])
  }

  function Escape(s: Text): Text {
    if s == [] then [] else Piece(s) + Escape(s[Taken(s)..])
  }

  function Quote(s: Text): Text {
    [QUOTE] + Escape(s) + [QUOTE]
  }

  // ----- Reading back -----

  lemma HexInjective(a: unit, b: unit)
    requires Hex(a) == Hex(b)
    ensures a == b
  {
    assert Hex(a)[2] == Hex(b)[2] && Hex(a)[3] == Hex(b)[3] && Hex(a)[4] == Hex(b)[4] && Hex(a)[5] == Hex(b)[5];
    DigitInjective(a / 4096, b / 4096);
    DigitInjective(a / 256 % 16, b / 256 % 16);
    DigitInjective(a / 16 % 16, b / 16 % 16);
    DigitInjective(a % 16, b % 16);
    Digits(a);
    Digits(b);
  }

  lemma DigitInjective(a: int, b: int)
    requires 0 <= a < 16 && 0 <= b < 16 && HexDigit(a) == HexDigit(b)
    ensures a == b
  {
  }

  lemma Digits(u: unit)
    ensures u == u / 4096 * 4096 + u / 256 % 16 * 256 + u / 16 % 16 * 16 + u % 16
  {
    assert u / 16 == u / 256 * 16 + u / 16 % 16;
    assert u / 256 == u / 4096 * 16 + u / 256 % 16;
  }

  /** What the first character of a piece says about it. */
  lemma PieceShape(s: Text)
    requires s != []
    ensures var t := Piece(s);
            && (t[0] == BACKSLASH ==> |t| >= 2 && t == EscapeUnit(s[0]) && Taken(s) == 1)
            && (t[0] == BACKSLASH ==> if t[1] == LOWER_U then t == Hex(s[0]) else t == [BACKSLASH, ShortEscape(s[0])])
            && (t[0] != BACKSLASH && High(t[0]) ==> Taken(s) == 2 && t == s[..2])
            && (t[0] != BACKSLASH && !High(t[0]) ==> Taken(s) == 1 && t == s[..1])
  {
  }

  lemma ShortInjective(a: unit, b: unit)
    requires ShortEscape(a) == ShortEscape(b) != 0
    ensures a == b
  {
  }

  /** The pieces form a prefix code, and each stands for one source. */
  lemma PieceUnique(a: Text, b: Text, r: Text, q: Text)
    requires a != [] && b != [] && Piece(a) + r == Piece(b) + q
    ensures Piece(a) == Piece(b) && Taken(a) == Taken(b) && a[..Taken(a)] == b[..Taken(b)] && r == q
  {
    PieceShape(a);
    PieceShape(b);
    var p, t := Piece(a), Piece(b);
    hide Piece, Taken, EscapeUnit;
    assert (p + r)[0] == p[0] && (t + q)[0] == t[0];
    SameLength(a, b, r, q);
    assert (p + r)[..|p|] == p && (t + q)[..|t|] == t;
    assert (p + r)[|p|..] == r && (t + q)[|t|..] == q;
    if p[0] == BACKSLASH {
      if p[1] == LOWER_U {
        HexInjective(a[0], b[0]);
      } else {
        ShortSame(a[0], b[0], p);
      }
      assert a[..1] == [a[0]] && b[..1] == [b[0]];
    }
  }

  lemma ShortSame(a: unit, b: unit, p: Text)
    requires p == [BACKSLASH, ShortEscape(a)] == [BACKSLASH, ShortEscape(b)]
    requires p == EscapeUnit(a) == EscapeUnit(b)
    ensures a == b
  {
    assert ShortEscape(a) == p[1] == ShortEscape(b);
    if ShortEscape(a) != 0 {
      ShortInjective(a, b);
    }
  }

  lemma SameLength(a: Text, b: Text, r: Text, q: Text)
    requires a != [] && b != [] && Piece(a) + r == Piece(b) + q
    ensures |Piece(a)| == |Piece(b)|
  {
    PieceShape(a);
    PieceShape(b);
    var p, t := Piece(a), Piece(b);
    hide Piece, EscapeUnit, ShortEscape, HexDigit;
    assert (p + r)[0] == p[0] && (t + q)[0] == t[0];
    if p[0] == BACKSLASH {
      assert (p + r)[1] == p[1] && (t + q)[1] == t[1];
    }
  }

  /** A quoted string ends where it ends: nothing that follows can be read as part of it. */
  lemma {:induction false} EscapeUnique(a: Text, b: Text, r: Text, q: Text)
    requires Escape(a) + [QUOTE] + r == Escape(b) + [QUOTE] + q
    ensures a == b && r == q
    decreases |a|
  {
    if a == [] || b == [] {
      EscapeEnds(a, b, r, q);
    } else {
      var x, y := Escape(a[Taken(a)..]) + [QUOTE] + r, Escape(b[Taken(b)..]) + [QUOTE] + q;
      EscapeStep(a, r);
      EscapeStep(b, q);
      PieceUnique(a, b, x, y);
      EscapeUnique(a[Taken(a)..], b[Taken(b)..], r, q);
      assert a == a[..Taken(a)] + a[Taken(a)..] && b == b[..Taken(b)] + b[Taken(b)..];
    }
  }

  lemma EscapeStep(a: Text, r: Text)
    requires a != []
    ensures Escape(a) + [QUOTE] + r == Piece(a) + (Escape(a[Taken(a)..]) + [QUOTE] + r)
  {
  }

  lemma EscapeEnds(a: Text, b: Text, r: Text, q: Text)
    requires Escape(a) + [QUOTE] + r == Escape(b) + [QUOTE] + q && (a == [] || b == [])
    ensures a == b && r == q
  {
    var x, y := Escape(a) + [QUOTE] + r, Escape(b) + [QUOTE] + q;
    FirstIs(a, r);
    FirstIs(b, q);
    assert x[1..] == r && y[1..] == q;
  }

  lemma FirstIs(a: Text, r: Text)
    ensures (Escape(a) + [QUOTE] + r)[0] == QUOTE <==> a == []
  {
    if a != [] {
      EscapeStep(a, r);
    }
  }

  lemma QuoteUnique(a: Text, b: Text, r: Text, q: Text)
    requires Quote(a) + r == Quote(b) + q
    ensures a == b && r == q
  {
    hide Escape;
    assert (Quote(a) + r)[1..] == Escape(a) + [QUOTE] + r;
    assert (Quote(b) + q)[1..] == Escape(b) + [QUOTE] + q;
    EscapeUnique(a, b, r, q);
  }

  /** No control character survives the escaping, so printed text holds no line break. */
  lemma {:induction false} EscapeVisible(s: Text)
    ensures forall i :: 0 <= i < |Escape(s)| ==> Escape(s)[i] >= 32
    decreases |s|
  {
    if s != [] {
      EscapeVisible(s[Taken(s)..]);
      PieceVisible(s);
      hide Piece, Taken;
    }
  }

  lemma PieceVisible(s: Text)
    requires s != []
    ensures forall i :: 0 <= i < |Piece(s)| ==> Piece(s)[i] >= 32
  {
  }
}
