/** When two JSON values print alike. */
module CanonicalEquality {
  // When two JSON values print alike, and when two histories have the same digest stream.

  import opened JsonText
  import opened CanonicalJson
  import opened CanonicalLaws

  predicate HasKey(fs: seq<Field>, k: Text) {
    exists i :: 0 <= i < |fs| && fs[i].Defined? && fs[i].key == k
  }

  /** Equality of JSON values up to the order of object members; undefined members do not count. */
  ghost predicate Same(v: Json, w: Json)
    decreases v
  {
    match v
    case Arr(xs) =>
      w.Arr? && |xs| == |w.items| && forall i :: 0 <= i < |xs| ==> Same(xs[i], w.items[i])
    case Obj(fs) =>
      && w.Obj? && (forall k: Text :: HasKey(fs, k) <==> HasKey(w.fields, k))
      && forall i, j | 0 <= i < |fs| && 0 <= j < |w.fields| && fs[i].Defined? && w.fields[j].Defined?
                       && fs[i].key == w.fields[j].key
           :: Same(fs[i].value, w.fields[j].value)
    case _ => v == w
  }

  /** The comparator is a total preorder, as `sort` needs. */
  ghost predicate IsOrder(cmp: Compare) {
    && (forall a, b :: cmp(a, b) <= 0 || cmp(b, a) <= 0)
    && (forall a, b, c :: cmp(a, b) <= 0 && cmp(b, c) <= 0 ==> cmp(a, c) <= 0)
  }

  predicate Ties(cmp: Compare, a: Text, b: Text) {
    cmp(a, b) <= 0 && cmp(b, a) <= 0 && a != b
  }

  ghost predicate NoTies(cmp: Compare) {
    forall a, b :: !Ties(cmp, a, b)
  }

  // ----- Sorting -----

  lemma {:induction false} InsertMembers(cmp: Compare, m: Member, ms: seq<Member>, x: Member)
    ensures x in Insert(cmp, m, ms) <==> x == m || x in ms
  {
    if ms != [] {
      InsertMembers(cmp, m, ms[1..], x);
      assert x in ms <==> x == ms[0] || x in ms[1..];
    }
  }

  lemma {:induction false} SortMembers(cmp: Compare, ms: seq<Member>, x: Member)
    ensures x in Sort(cmp, ms) <==> x in ms
  {
    if ms != [] {
      SortMembers(cmp, ms[1..], x);
      InsertMembers(cmp, ms[0], Sort(cmp, ms[1..]), x);
      assert x in ms <==> x == ms[0] || x in ms[1..];
    }
  }

  ghost predicate Sorted(cmp: Compare, ms: seq<Member>) {
    ms != [] ==> (forall x <- ms[1..] :: cmp(ms[0].key, x.key) <= 0) && Sorted(cmp, ms[1..])
  }

  lemma {:induction false} InsertSorts(cmp: Compare, m: Member, ms: seq<Member>)
    requires IsOrder(cmp) && Sorted(cmp, ms)
    ensures Sorted(cmp, Insert(cmp, m, ms))
  {
    if ms != [] {
      if cmp(m.key, ms[0].key) <= 0 {
        assert ([m] + ms)[1..] == ms;
        forall x <- ms ensures cmp(m.key, x.key) <= 0 {
          assert x == ms[0] || x in ms[1..];
        }
      } else {
        InsertSorts(cmp, m, ms[1..]);
        var rest := Insert(cmp, m, ms[1..]);
        assert ([ms[0]] + rest)[1..] == rest;
        forall x <- rest ensures cmp(ms[0].key, x.key) <= 0 {
          InsertMembers(cmp, m, ms[1..], x);
        }
      }
    }
  }

  lemma {:induction false} SortSorts(cmp: Compare, ms: seq<Member>)
    requires IsOrder(cmp)
    ensures Sorted(cmp, Sort(cmp, ms))
  {
    if ms != [] {
      SortSorts(cmp, ms[1..]);
      InsertSorts(cmp, ms[0], Sort(cmp, ms[1..]));
    }
  }

  ghost predicate DistinctKeys(ms: seq<Member>) {
    ms != [] ==> (forall x <- ms[1..] :: x.key != ms[0].key) && DistinctKeys(ms[1..])
  }

  lemma {:induction false} InsertDistinct(cmp: Compare, m: Member, ms: seq<Member>)
    requires DistinctKeys(ms) && forall x <- ms :: x.key != m.key
    ensures DistinctKeys(Insert(cmp, m, ms))
  {
    if ms != [] {
      if cmp(m.key, ms[0].key) <= 0 {
        assert ([m] + ms)[1..] == ms;
      } else {
        InsertDistinct(cmp, m, ms[1..]);
        var rest := Insert(cmp, m, ms[1..]);
        assert ([ms[0]] + rest)[1..] == rest;
        forall x <- rest ensures x.key != ms[0].key {
          InsertMembers(cmp, m, ms[1..], x);
        }
      }
    }
  }

  lemma {:induction false} SortDistinct(cmp: Compare, ms: seq<Member>)
    requires DistinctKeys(ms)
    ensures DistinctKeys(Sort(cmp, ms))
  {
    if ms != [] {
      SortDistinct(cmp, ms[1..]);
      forall x <- Sort(cmp, ms[1..]) ensures x.key != ms[0].key {
        SortMembers(cmp, ms[1..], x);
      }
      InsertDistinct(cmp, ms[0], Sort(cmp, ms[1..]));
    }
  }

  ghost predicate SameMembers(a: seq<Member>, b: seq<Member>) {
    forall m :: m in a <==> m in b
  }

  lemma HeadsEqual(cmp: Compare, a: seq<Member>, b: seq<Member>)
    requires NoTies(cmp) && Sorted(cmp, a) && Sorted(cmp, b) && DistinctKeys(a) && SameMembers(a, b) && a != [] && b != []
    ensures a[0] == b[0]
  {
    assert a[0] in a && b[0] in b;
    assert a[0] == b[0] || a[0] in b[1..];
    assert b[0] == a[0] || b[0] in a[1..];
    if a[0] != b[0] {
      assert Ties(cmp, a[0].key, b[0].key);
    }
  }

  lemma TailMembers(a: seq<Member>, m: Member)
    requires DistinctKeys(a) && a != []
    ensures m in a[1..] <==> m in a && m != a[0]
  {
    assert m in a <==> m == a[0] || m in a[1..];
  }

  lemma BothEmpty(a: seq<Member>, b: seq<Member>)
    requires SameMembers(a, b)
    ensures a == [] <==> b == []
  {
    if a != [] {
      assert a[0] in a;
    }
    if b != [] {
      assert b[0] in b;
    }
  }

  /** Without ties there is only one sorted arrangement. */
  lemma {:induction false} SortedUnique(cmp: Compare, a: seq<Member>, b: seq<Member>)
    requires NoTies(cmp) && Sorted(cmp, a) && Sorted(cmp, b) && DistinctKeys(a) && DistinctKeys(b) && SameMembers(a, b)
    ensures a == b
  {
    BothEmpty(a, b);
    if a != [] {
      HeadsEqual(cmp, a, b);
      forall m ensures m in a[1..] <==> m in b[1..] {
        TailMembers(a, m);
        TailMembers(b, m);
      }
      assert a == [a[0]] + a[1..] && b == [b[0]] + b[1..];
      hide NoTies;
      SortedUnique(cmp, a[1..], b[1..]);
    }
  }

  // ----- Members of an object -----

  lemma {:induction false} MembersAre(cmp: Compare, fs: seq<Field>, m: Member)
    ensures m in Members(cmp, fs)
       <==> exists i :: 0 <= i < |fs| && fs[i].Defined? && fs[i].key == m.key && Canon(cmp, fs[i].value) == m.value
  {
    hide Canon;
    if fs != [] {
      MembersAre(cmp, fs[1..], m);
      if i :| 0 <= i < |fs| && fs[i].Defined? && fs[i].key == m.key && Canon(cmp, fs[i].value) == m.value {
        if i > 0 {
          assert fs[1..][i - 1] == fs[i];
        }
      }
    }
  }

  lemma {:induction false} MembersDistinct(cmp: Compare, fs: seq<Field>)
    requires Distinct(fs)
    ensures DistinctKeys(Members(cmp, fs))
  {
    hide Canon;
    if fs != [] {
      MembersDistinct(cmp, fs[1..]);
      var rest := Members(cmp, fs[1..]);
      if fs[0].Defined? {
        forall x <- rest ensures x.key != fs[0].key {
          MembersAre(cmp, fs[1..], x);
        }
        assert ([Member(fs[0].key, Canon(cmp, fs[0].value))] + rest)[1..] == rest;
      }
    }
  }

  /** The member printed for a defined field, and back. */
  lemma FieldMember(cmp: Compare, fs: seq<Field>, i: nat)
    requires i < |fs| && fs[i].Defined?
    ensures Member(fs[i].key, Canon(cmp, fs[i].value)) in Members(cmp, fs)
  {
    MembersAre(cmp, fs, Member(fs[i].key, Canon(cmp, fs[i].value)));
  }

  lemma SortedMembersSame(cmp: Compare, fs: seq<Field>, gs: seq<Field>, m: Member)
    requires Sort(cmp, Members(cmp, fs)) == Sort(cmp, Members(cmp, gs))
    ensures m in Members(cmp, fs) <==> m in Members(cmp, gs)
  {
    hide Members, Sort;
    SortMembers(cmp, Members(cmp, fs), m);
    SortMembers(cmp, Members(cmp, gs), m);
  }

  // ----- Equal trees mean equal values -----

  lemma {:induction false} CanonSame(cmp: Compare, v: Json, w: Json)
    requires Proper(v) && Proper(w) && Canon(cmp, v) == Canon(cmp, w)
    ensures Same(v, w)
    decreases v
  {
    match v
    case Arr(xs) =>
      forall i | 0 <= i < |xs| ensures Same(xs[i], w.items[i]) {
        assert CanonItems(cmp, xs)[i] == CanonItems(cmp, w.items)[i];
        CanonSame(cmp, xs[i], w.items[i]);
      }
    case Obj(fs) =>
      var gs := w.fields;
      forall i, j | 0 <= i < |fs| && 0 <= j < |gs| && fs[i].Defined? && gs[j].Defined? && fs[i].key == gs[j].key
        ensures Same(fs[i].value, gs[j].value)
      {
        SameField(cmp, fs, gs, i, j);
        CanonSame(cmp, fs[i].value, gs[j].value);
      }
      forall k: Text ensures HasKey(fs, k) <==> HasKey(gs, k) {
        if HasKey(fs, k) {
          KeysSame(cmp, fs, gs, k);
        }
        if HasKey(gs, k) {
          KeysSame(cmp, gs, fs, k);
        }
      }
    case _ =>
  }

  lemma SameField(cmp: Compare, fs: seq<Field>, gs: seq<Field>, i: nat, j: nat)
    requires Sort(cmp, Members(cmp, fs)) == Sort(cmp, Members(cmp, gs)) && Distinct(gs)
    requires i < |fs| && j < |gs| && fs[i].Defined? && gs[j].Defined? && fs[i].key == gs[j].key
    ensures Canon(cmp, fs[i].value) == Canon(cmp, gs[j].value)
  {
    hide Sort, Members, Canon;
    var m := Member(fs[i].key, Canon(cmp, fs[i].value));
    FieldMember(cmp, fs, i);
    SortedMembersSame(cmp, fs, gs, m);
    MembersAre(cmp, gs, m);
    var k :| 0 <= k < |gs| && gs[k].Defined? && gs[k].key == m.key && Canon(cmp, gs[k].value) == m.value;
    assert k == j;
  }

  lemma KeysSame(cmp: Compare, fs: seq<Field>, gs: seq<Field>, k: Text)
    requires Sort(cmp, Members(cmp, fs)) == Sort(cmp, Members(cmp, gs)) && HasKey(fs, k)
    ensures HasKey(gs, k)
  {
    hide Sort, Members, Canon;
    var i :| 0 <= i < |fs| && fs[i].Defined? && fs[i].key == k;
    var m := Member(k, Canon(cmp, fs[i].value));
    FieldMember(cmp, fs, i);
    SortedMembersSame(cmp, fs, gs, m);
    MembersAre(cmp, gs, m);
  }

  // ----- Equal values mean equal trees -----

  lemma {:induction false} SameCanon(cmp: Compare, v: Json, w: Json)
    requires IsOrder(cmp) && NoTies(cmp) && Proper(v) && Proper(w) && Same(v, w)
    ensures Canon(cmp, v) == Canon(cmp, w)
    decreases v
  {
    hide IsOrder, NoTies;
    match v
    case Arr(xs) =>
      forall i | 0 <= i < |xs| ensures Canon(cmp, xs[i]) == Canon(cmp, w.items[i]) {
        SameCanon(cmp, xs[i], w.items[i]);
      }
    case Obj(fs) =>
      var gs := w.fields;
      forall i, j | 0 <= i < |fs| && 0 <= j < |gs| && fs[i].Defined? && gs[j].Defined? && fs[i].key == gs[j].key
        ensures Canon(cmp, fs[i].value) == Canon(cmp, gs[j].value)
      {
        SameCanon(cmp, fs[i].value, gs[j].value);
      }
      FieldsSort(cmp, fs, gs);
    case _ =>
  }

  lemma FieldsSort(cmp: Compare, fs: seq<Field>, gs: seq<Field>)
    requires IsOrder(cmp) && NoTies(cmp) && Distinct(fs) && Distinct(gs)
    requires forall k: Text :: HasKey(fs, k) <==> HasKey(gs, k)
    requires forall i, j :: 0 <= i < |fs| && 0 <= j < |gs| && fs[i].Defined? && gs[j].Defined? && fs[i].key == gs[j].key
               ==> Canon(cmp, fs[i].value) == Canon(cmp, gs[j].value)
    ensures Sort(cmp, Members(cmp, fs)) == Sort(cmp, Members(cmp, gs))
  {
    hide IsOrder, NoTies, Canon, Sort, Members;
    var a, b := Members(cmp, fs), Members(cmp, gs);
    MembersDistinct(cmp, fs);
    MembersDistinct(cmp, gs);
    forall m ensures m in Sort(cmp, a) <==> m in Sort(cmp, b) {
      MembersAre(cmp, fs, m);
      MembersAre(cmp, gs, m);
      MembersAlike(cmp, fs, gs, m);
      SortMembers(cmp, a, m);
      SortMembers(cmp, b, m);
    }
    SortDistinct(cmp, a);
    SortDistinct(cmp, b);
    SortSorts(cmp, a);
    SortSorts(cmp, b);
    SortedUnique(cmp, Sort(cmp, a), Sort(cmp, b));
  }

  lemma MembersAlike(cmp: Compare, fs: seq<Field>, gs: seq<Field>, m: Member)
    requires forall k: Text :: HasKey(fs, k) <==> HasKey(gs, k)
    requires forall i, j :: 0 <= i < |fs| && 0 <= j < |gs| && fs[i].Defined? && gs[j].Defined? && fs[i].key == gs[j].key
               ==> Canon(cmp, fs[i].value) == Canon(cmp, gs[j].value)
    ensures (exists i :: 0 <= i < |fs| && fs[i].Defined? && fs[i].key == m.key && Canon(cmp, fs[i].value) == m.value)
       <==> (exists j :: 0 <= j < |gs| && gs[j].Defined? && gs[j].key == m.key && Canon(cmp, gs[j].value) == m.value)
  {
    hide Canon;
    if i :| 0 <= i < |fs| && fs[i].Defined? && fs[i].key == m.key && Canon(cmp, fs[i].value) == m.value {
      assert HasKey(fs, m.key);
      assert HasKey(gs, m.key);
    }
    if j :| 0 <= j < |gs| && gs[j].Defined? && gs[j].key == m.key && Canon(cmp, gs[j].value) == m.value {
      assert HasKey(gs, m.key);
      assert HasKey(fs, m.key);
    }
  }

  // ----- Main results -----

  /** Values that differ in more than member order never print alike, whatever the comparator does. */
  lemma PrintsAlikeMeansSame(cmp: Compare, v: Json, w: Json)
    requires Proper(v) && Proper(w) && StableJson(cmp, v) == StableJson(cmp, w)
    ensures Same(v, w)
  {
    hide Proper, Same, Canon, Print;
    PrintInjective(Canon(cmp, v), Canon(cmp, w));
    CanonSame(cmp, v, w);
  }

  /** With a comparator that never ties two different names, the text is canonical. */
  lemma PrintsAlikeExactly(cmp: Compare, v: Json, w: Json)
    requires IsOrder(cmp) && NoTies(cmp) && Proper(v) && Proper(w)
    ensures StableJson(cmp, v) == StableJson(cmp, w) <==> Same(v, w)
  {
    hide Proper, Same, Canon, Print, IsOrder, NoTies;
    if Same(v, w) {
      SameCanon(cmp, v, w);
    } else if StableJson(cmp, v) == StableJson(cmp, w) {
      PrintsAlikeMeansSame(cmp, v, w);
    }
  }

  /** Two names that tie keep the order they were written in, and so show it. */
  lemma TiesShow(cmp: Compare, a: Text, b: Text)
    requires Ties(cmp, a, b)
    ensures var v, w := Obj([Defined(a, Null), Defined(b, Null)]), Obj([Defined(b, Null), Defined(a, Null)]);
            Proper(v) && Proper(w) && Same(v, w) && StableJson(cmp, v) != StableJson(cmp, w)
  {
    var fs, gs := [Defined(a, Null), Defined(b, Null)], [Defined(b, Null), Defined(a, Null)];
    var x, y := Member(a, TNull), Member(b, TNull);
    TwoSorted(cmp, fs, x, y);
    TwoSorted(cmp, gs, y, x);
    assert [x, y][0] != [y, x][0];
    hide Print;
    if Print(TObj([x, y])) == Print(TObj([y, x])) {
      PrintInjective(TObj([x, y]), TObj([y, x]));
    }
    assert HasKey(fs, a) && HasKey(fs, b) && HasKey(gs, a) && HasKey(gs, b) by {
      assert fs[0].key == a && fs[1].key == b && gs[0].key == b && gs[1].key == a;
    }
  }

  lemma TwoSorted(cmp: Compare, fs: seq<Field>, x: Member, y: Member)
    requires fs == [Defined(x.key, Null), Defined(y.key, Null)] && x.value == y.value == TNull && cmp(x.key, y.key) <= 0
    ensures Canon(cmp, Obj(fs)) == TObj([x, y])
  {
    assert fs[1..] == [Defined(y.key, Null)] && fs[1..][1..] == [];
    assert Members(cmp, fs[1..]) == [y];
    assert Members(cmp, fs) == [x, y];
    assert [x, y][1..] == [y] && [y][1..] == [];
    assert Sort(cmp, [y]) == [y];
  }

  /** The text is canonical for all values exactly when the comparator ties no two different names. */
  lemma CanonicalExactly(cmp: Compare)
    requires IsOrder(cmp)
    ensures (forall v, w :: Proper(v) && Proper(w) && Same(v, w) ==> StableJson(cmp, v) == StableJson(cmp, w))
       <==> NoTies(cmp)
  {
    hide Proper, Same, StableJson, IsOrder, Ties;
    if NoTies(cmp) {
      forall v, w | Proper(v) && Proper(w) && Same(v, w) ensures StableJson(cmp, v) == StableJson(cmp, w) {
        PrintsAlikeExactly(cmp, v, w);
      }
    } else {
      var a, b :| Ties(cmp, a, b);
      TiesShow(cmp, a, b);
    }
  }
}
