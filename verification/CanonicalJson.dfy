/** `stableHistoryJson` of `src/agent-runtime/history.ts` (the same printer is `stableJson` of
    `src/core/output-render-sequence.ts`): JSON text with the members of each object sorted by name. */
module CanonicalJson {
  import opened JsonText

  /** A number is the text JavaScript prints for it. */
  type Numeral = t: Text | t != [] && forall i :: 0 <= i < |t| ==> NumberChar(t[i]) witness [48]

  /** Digits, sign, point and exponent of section 6 of RFC 8259. */
  predicate NumberChar(c: unit) {
    48 <= c <= 57 || c == 43 || c == 45 || c == 46 || c == 101
  }

  /** A JSON value; members with the value `undefined` may occur in an object. */
  datatype Json =
    | Null
    | Bool(b: bool)
    | Num(text: Numeral)
    | Str(s: Text)
    | Arr(items: seq<Json>)
    | Obj(fields: seq<Field>)

  datatype Field = Undefined(key: Text) | Defined(key: Text, value: Json)

  /** The printed form before it is text: members in their final order, none undefined. */
  datatype Tree =
    | TNull
    | TBool(b: bool)
    | TNum(text: Numeral)
    | TStr(s: Text)
    | TArr(items: seq<Tree>)
    | TObj(members: seq<Member>)

  datatype Member = Member(key: Text, value: Tree)

  /** Object keys are distinct, as in any JavaScript object. */
  predicate Distinct(fs: seq<Field>) {
    forall i, j :: 0 <= i < j < |fs| ==> fs[i].key != fs[j].key
  }

  ghost predicate Proper(v: Json) {
    match v
    case Arr(items) => forall i :: 0 <= i < |items| ==> Proper(items[i])
    case Obj(fields) => Distinct(fields) && forall i :: 0 <= i < |fields| && fields[i].Defined? ==> Proper(fields[i].value)
    case _ => true
  }

  // ----- Sorting by key -----

  /** The comparator the source passes to `sort` on keys. */
  type Compare = (Text, Text) -> int

  /** Stable: a member goes before the first one it is not greater than. */
  function Insert(cmp: Compare, m: Member, ms: seq<Member>): (r: seq<Member>)
    ensures |r| == |ms| + 1
  {
    if ms == [] then [m]
    else if cmp(m.key, ms[0].key) <= 0 then [m] + ms
    else [ms[0]] + Insert(cmp, m, ms[1..])
  }

  function Sort(cmp: Compare, ms: seq<Member>): (r: seq<Member>)
    ensures |r| == |ms|
  {
    if ms == [] then [] else Insert(cmp, ms[0], Sort(cmp, ms[1..]))
  }

  // ----- The canonical tree -----

  function Canon(cmp: Compare, v: Json): Tree
    decreases v
  {
    match v
    case Null => TNull
    case Bool(b) => TBool(b)
    case Num(t) => TNum(t)
    case Str(s) => TStr(s)
    case Arr(items) => TArr(CanonItems(cmp, items))
    case Obj(fields) => TObj(Sort(cmp, Members(cmp, fields)))
  }

  function CanonItems(cmp: Compare, items: seq<Json>): (r: seq<Tree>)
    ensures |r| == |items| && forall i :: 0 <= i < |items| ==> r[i] == Canon(cmp, items[i])
    decreases items
  {
    if items == [] then [] else [Canon(cmp, items[0])] + CanonItems(cmp, items[1..])
  }

  /** The defined members, printed form beside key, still in their own order. */
  function Members(cmp: Compare, fields: seq<Field>): seq<Member>
    decreases fields
  {
    if fields == [] then []
    else
      var rest := Members(cmp, fields[1..]);
      if fields[0].Undefined? then rest else [Member(fields[0].key, Canon(cmp, fields[0].value))] + rest
  }

  // ----- Printing -----

  const NULL: Text := [110, 117, 108, 108]
  const TRUE: Text := [116, 114, 117, 101]
  const FALSE: Text := [102, 97, 108, 115, 101]
  const COMMA: unit := 44
  const COLON: unit := 58
  const LBRACKET: unit := 91
  const RBRACKET: unit := 93
  const LBRACE: unit := 123
  const RBRACE: unit := 125

  function Print(t: Tree): (s: Text)
    ensures s != []
    decreases t
  {
    match t
    case TNull => NULL
    case TBool(b) => if b then TRUE else FALSE
    case TNum(n) => n
    case TStr(s) => Quote(s)
    case TArr(items) => [LBRACKET] + PrintItems(items, true) + [RBRACKET]
    case TObj(members) => [LBRACE] + PrintMembers(members, true) + [RBRACE]
  }

  /** Items joined by commas; `first` says that no item has been printed yet. */
  function PrintItems(items: seq<Tree>, first: bool): Text
    decreases items
  {
    if items == [] then []
    else (if first then [] else [COMMA]) + Print(items[0]) + PrintItems(items[1..], false)
  }

  function PrintMember(m: Member): Text
    decreases m
  {
    Quote(m.key) + [COLON] + Print(m.value)
  }

  function PrintMembers(members: seq<Member>, first: bool): Text
    decreases members
  {
    if members == [] then []
    else (if first then [] else [COMMA]) + PrintMember(members[0]) + PrintMembers(members[1..], false)
  }

  /** `stableHistoryJson`. */
  function StableJson(cmp: Compare, v: Json): Text {
    Print(Canon(cmp, v))
  }
}
