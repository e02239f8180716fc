/** Lists that forget closed items first. */
module RecentLists {
  // The trimming loops of `src/core/output-render-sequence.ts`: lists kept by key, of which only closed items may be
  // forgotten, the oldest key first.

  import opened JsMap

  type Lists<T> = JsMap<string, seq<T>>

  function Length<T>(vals: map<string, seq<T>>, k: string): nat {
    if k in vals then |vals[k]| else 0
  }

  function Total<T>(keys: seq<string>, vals: map<string, seq<T>>): nat {
    if keys == [] then 0 else Length(vals, keys[0]) + Total(keys[1..], vals)
  }

  /** `findIndex`. */
  function FirstIndex<T>(s: seq<T>, p: T -> bool): (i: int)
    ensures -1 <= i < |s|
    ensures i >= 0 ==> p(s[i]) && forall j :: 0 <= j < i ==> !p(s[j])
    ensures i < 0 ==> forall x <- s :: !p(x)
  {
    if s == [] then -1
    else if p(s[0]) then 0
    else
      var rest := FirstIndex(s[1..], p);
      if rest < 0 then -1 else rest + 1
  }

  function Without<T>(s: seq<T>, i: nat): seq<T>
    requires i < |s|
  {
    s[..i] + s[i + 1..]
  }

  predicate HasClosed<T>(vals: map<string, seq<T>>, k: string, closed: T -> bool) {
    k in vals && FirstIndex(vals[k], closed) >= 0
  }

  /** The first key, in insertion order, that has a closed item. */
  function ClosedKey<T>(keys: seq<string>, vals: map<string, seq<T>>, closed: T -> bool): (i: int)
    ensures -1 <= i < |keys|
    ensures i >= 0 ==> HasClosed(vals, keys[i], closed)
    ensures i < 0 ==> forall k <- keys :: !HasClosed(vals, k, closed)
  {
    if keys == [] then -1
    else if HasClosed(vals, keys[0], closed) then 0
    else
      var rest := ClosedKey(keys[1..], vals, closed);
      if rest < 0 then -1 else rest + 1
  }

  /** Drops the oldest closed item of one key, and the key once it holds nothing. */
  function DropClosed<T>(m: Lists<T>, k: string, closed: T -> bool): Lists<T>
    requires HasClosed(m.vals, k, closed)
  {
    var list := Without(m.vals[k], FirstIndex(m.vals[k], closed));
    if list == [] then Delete(m, k) else m.(vals := m.vals[k := list])
  }

  function Trim<T>(m: Lists<T>, closed: T -> bool, limit: nat): Lists<T>
    requires ValidMap(m)
    decreases Total(m.keys, m.vals)
  {
    if Total(m.keys, m.vals) <= limit then m
    else
      var i := ClosedKey(m.keys, m.vals, closed);
      if i < 0 then m
      else
        DropShrinks(m, m.keys[i], closed);
        Trim(DropClosed(m, m.keys[i], closed), closed, limit)
  }

  // ----- What trimming does -----

  lemma {:induction false} TotalSame<T>(keys: seq<string>, vals: map<string, seq<T>>, vals': map<string, seq<T>>)
    requires forall k <- keys :: Length(vals, k) == Length(vals', k)
    ensures Total(keys, vals) == Total(keys, vals')
  {
    if keys != [] {
      TotalSame(keys[1..], vals, vals');
    }
  }

  lemma {:induction false} TotalUpdate<T>(keys: seq<string>, vals: map<string, seq<T>>, k: string, list: seq<T>)
    requires Distinct(keys) && k in keys && k in vals
    ensures Total(keys, vals[k := list]) == Total(keys, vals) - |vals[k]| + |list|
  {
    if keys[0] == k {
      TotalSame(keys[1..], vals, vals[k := list]);
    } else {
      TotalUpdate(keys[1..], vals, k, list);
    }
  }

  lemma {:induction false} TotalSplit<T>(a: seq<string>, b: seq<string>, vals: map<string, seq<T>>)
    ensures Total(a + b, vals) == Total(a, vals) + Total(b, vals)
  {
    if a == [] {
      assert a + b == b;
    } else {
      assert (a + b)[1..] == a[1..] + b;
      TotalSplit(a[1..], b, vals);
    }
  }

  lemma TotalDelete<T>(m: Lists<T>, k: string)
    requires ValidMap(m) && k in m.vals
    ensures Total(Delete(m, k).keys, Delete(m, k).vals) == Total(m.keys, m.vals) - |m.vals[k]|
  {
    var i := IndexOf(m.keys, k);
    var a, b := m.keys[..i], m.keys[i + 1..];
    assert m.keys == a + [k] + b;
    TotalSplit(a + [k], b, m.vals);
    TotalSplit(a, [k], m.vals);
    TotalSplit(a, b, m.vals - {k});
    TotalSame(a, m.vals, m.vals - {k});
    TotalSame(b, m.vals, m.vals - {k});
    assert Total([k], m.vals) == |m.vals[k]| by {
      assert [k][1..] == [];
    }
  }

  lemma DropShrinks<T>(m: Lists<T>, k: string, closed: T -> bool)
    requires ValidMap(m) && HasClosed(m.vals, k, closed)
    ensures ValidMap(DropClosed(m, k, closed))
    ensures var m' := DropClosed(m, k, closed); Total(m'.keys, m'.vals) + 1 == Total(m.keys, m.vals)
  {
    var list := Without(m.vals[k], FirstIndex(m.vals[k], closed));
    hide Total;
    if list == [] {
      TotalDelete(m, k);
      DeleteValid(m, k);
    } else {
      TotalUpdate(m.keys, m.vals, k, list);
    }
  }

  /** The items of a list that are still open, in order. */
  function Open<T>(s: seq<T>, closed: T -> bool): seq<T> {
    if s == [] then [] else (if closed(s[0]) then [] else [s[0]]) + Open(s[1..], closed)
  }

  function ListOf<T>(m: Lists<T>, k: string): seq<T> {
    if k in m.vals then m.vals[k] else []
  }

  lemma {:induction false} OpenWithout<T>(s: seq<T>, i: nat, closed: T -> bool)
    requires i < |s| && closed(s[i])
    ensures Open(Without(s, i), closed) == Open(s, closed)
  {
    if i == 0 {
      assert Without(s, 0) == s[1..];
    } else {
      OpenWithout(s[1..], i - 1, closed);
      assert Without(s, i) == [s[0]] + Without(s[1..], i - 1);
      assert Without(s, i)[1..] == Without(s[1..], i - 1);
    }
  }

  /** A kept list is the old one with some items left out. */
  ghost predicate Sub<T(!new)>(a: seq<T>, b: seq<T>) {
    exists f: seq<nat> :: Picks(a, b, f)
  }

  ghost predicate Picks<T>(a: seq<T>, b: seq<T>, f: seq<nat>) {
    && |f| == |a|
    && (forall i :: 0 <= i < |f| ==> f[i] < |b| && a[i] == b[f[i]])
    && (forall i, j :: 0 <= i < j < |f| ==> f[i] < f[j])
  }

  lemma SubSelf<T(!new)>(a: seq<T>)
    ensures Sub(a, a)
  {
    assert Picks(a, a, seq(|a|, i => i));
  }

  lemma SubWithout<T(!new)>(a: seq<T>, b: seq<T>, i: nat)
    requires Sub(a, b) && i < |a|
    ensures Sub(Without(a, i), b)
  {
    var f :| Picks(a, b, f);
    assert Picks(Without(a, i), b, Without(f, i));
  }

  /**
   * Trimming never drops an open item, keeps the order of what it keeps, and stops either within the limit or
   * when every item left is open.
   */
  lemma {:induction false} TrimKeeps<T(!new)>(m: Lists<T>, closed: T -> bool, limit: nat)
    requires ValidMap(m)
    ensures var m' := Trim(m, closed, limit);
            && ValidMap(m')
            && (forall k :: Open(ListOf(m', k), closed) == Open(ListOf(m, k), closed) && Sub(ListOf(m', k), ListOf(m, k)))
            && (Total(m'.keys, m'.vals) <= limit || forall k <- m'.keys :: !HasClosed(m'.vals, k, closed))
    decreases Total(m.keys, m.vals)
  {
    hide Open, Sub, FirstIndex, DropClosed, Total;
    var i := ClosedKey(m.keys, m.vals, closed);
    if Total(m.keys, m.vals) > limit && i >= 0 {
      var m1 := DropClosed(m, m.keys[i], closed);
      DropShrinks(m, m.keys[i], closed);
      TrimKeeps(m1, closed, limit);
      var m' := Trim(m1, closed, limit);
      forall k ensures Open(ListOf(m', k), closed) == Open(ListOf(m, k), closed) && Sub(ListOf(m', k), ListOf(m, k)) {
        DropOne(m, m.keys[i], closed, k);
        SubTwice(ListOf(m', k), ListOf(m1, k), ListOf(m, k));
      }
    } else {
      forall k ensures Sub(ListOf(m, k), ListOf(m, k)) {
        SubSelf(ListOf(m, k));
      }
    }
  }

  lemma SubTwice<T(!new)>(a: seq<T>, b: seq<T>, c: seq<T>)
    requires Sub(a, b) && Sub(b, c)
    ensures Sub(a, c)
  {
    var f :| Picks(a, b, f);
    var g :| Picks(b, c, g);
    assert Picks(a, c, seq(|f|, i requires 0 <= i < |f| => g[f[i]]));
  }

  lemma DropOne<T(!new)>(m: Lists<T>, k0: string, closed: T -> bool, k: string)
    requires ValidMap(m) && HasClosed(m.vals, k0, closed)
    ensures var m' := DropClosed(m, k0, closed);
            Open(ListOf(m', k), closed) == Open(ListOf(m, k), closed) && Sub(ListOf(m', k), ListOf(m, k))
  {
    hide Sub, Open;
    SubSelf(ListOf(m, k));
    if k == k0 {
      var i := FirstIndex(m.vals[k], closed);
      OpenWithout(m.vals[k], i, closed);
      SubWithout(m.vals[k], m.vals[k], i);
    }
  }

  /** The loop itself. */
  method TrimLists<T>(lists: Lists<T>, closed: T -> bool, limit: nat) returns (m: Lists<T>)
    requires ValidMap(lists)
    ensures m == Trim(lists, closed, limit)
  {
    hide Total, DropClosed;
    m := lists;
    var total := Total(m.keys, m.vals);
    while total > limit
      invariant ValidMap(m) && total == Total(m.keys, m.vals)
      invariant Trim(lists, closed, limit) == Trim(m, closed, limit)
      decreases total
    {
      var i := ClosedKey(m.keys, m.vals, closed);
      if i < 0 {
        break;
      }
      DropShrinks(m, m.keys[i], closed);
      m := DropClosed(m, m.keys[i], closed);
      total := total - 1;
    }
  }
}
