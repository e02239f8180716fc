/** Whole numbers of JavaScript. */
module JsNumber {
  // Whole numbers as JavaScript holds them: exact up to 2^53, and rounded to a double above. The exponent has no
  // upper end here: where the language turns to infinity this goes on rounding.

  const TWO_53 := 9007199254740992

  function Pow2(k: nat): (p: int)
    ensures p >= 1
  {
    if k == 0 then 1 else 2 * Pow2(k - 1)
  }

  /** The spacing of the doubles around `n` is two to this power. */
  function Exponent(n: nat): (e: nat)
    ensures n <= TWO_53 * Pow2(e) && (e > 0 ==> n > TWO_53 * Pow2(e - 1))
  {
    if n <= TWO_53 then 0 else 1 + Exponent((n + 1) / 2)
  }

  /** The nearer of two neighbouring multiples of a spacing, and the even one of two equally near. */
  function Nearest(n: nat, step: int): int
    requires step >= 1
  {
    var q, r := n / step, n % step;
    if 2 * r < step || (2 * r == step && q % 2 == 0) then q * step else (q + 1) * step
  }

  function ToNumber(n: int): int {
    if n < 0 then -Nearest(-n, Pow2(Exponent(-n))) else Nearest(n, Pow2(Exponent(n)))
  }

  predicate IsNumber(n: int) {
    ToNumber(n) == n
  }

  /** Adding one to a number gives a larger one. */
  predicate Increments(n: int) {
    n < TWO_53 || (n < 2 * TWO_53 && n % 4 == 2)
  }

  // ----- The spacing -----

  lemma {:induction false} Pow2Order(i: nat, j: nat)
    requires i <= j
    ensures Pow2(i) <= Pow2(j)
  {
    if i < j {
      Pow2Order(i, j - 1);
    }
  }

  lemma ExponentIs(n: nat, e: nat)
    requires n <= TWO_53 * Pow2(e) && (e > 0 ==> n > TWO_53 * Pow2(e - 1))
    ensures Exponent(n) == e
  {
    var e0 := Exponent(n);
    if e0 < e {
      Pow2Order(e0, e - 1);
    } else if e < e0 {
      Pow2Order(e, e0 - 1);
    }
  }

  /** Factors compare as their products do. */
  lemma FactorLess(a: int, b: int, p: int)
    requires p >= 1 && a * p < b * p
    ensures a < b
  {
  }

  lemma DivisionIs(q: int, r: int, step: int)
    requires 0 <= r < step
    ensures (q * step + r) / step == q && (q * step + r) % step == r
  {
    var d := (q * step + r) / step;
    var n := q * step + r;
    assert d * step == n - n % step;
    assert (q + 1) * step == q * step + step && (d + 1) * step == d * step + step;
    FactorLess(d, q + 1, step);
    FactorLess(q, d + 1, step);
  }

  lemma NearestAt(q: int, r: int, step: int)
    requires q >= 0 && 0 <= r < step
    ensures q * step + r >= 0
    ensures Nearest(q * step + r, step)
         == if 2 * r < step || (2 * r == step && q % 2 == 0) then q * step else (q + 1) * step
  {
    DivisionIs(q, r, step);
  }

  /** A number split at a spacing. */
  lemma Split(n: nat, p: int) returns (q: nat, r: nat)
    requires p >= 1
    ensures q == n / p && n == q * p + r && r < p
    ensures n <= TWO_53 * p ==> q <= TWO_53 && (q == TWO_53 ==> r == 0)
  {
    q, r := n / p, n % p;
    assert (TWO_53 + 1) * p == TWO_53 * p + p && (q + 1) * p == q * p + p;
    if n <= TWO_53 * p {
      FactorLess(q, TWO_53 + 1, p);
    }
  }

  /** Every double is a multiple of its spacing; above 2^53 it has 53 bits. */
  lemma Shape(n: nat) returns (q: nat, e: nat)
    requires IsNumber(n)
    ensures e == Exponent(n) && n == q * Pow2(e) && q <= TWO_53 && (e > 0 ==> q > TWO_53 / 2)
  {
    e := Exponent(n);
    var r;
    q, r := Split(n, Pow2(e));
    if e > 0 {
      assert Pow2(e) == 2 * Pow2(e - 1);
    }
    var p, h := Pow2(e), if e > 0 then Pow2(e - 1) else 1;
    assert Nearest(n, p) == n;
    hide Pow2, Exponent, IsNumber, ToNumber;
    NoRemainder(n, q, r, p);
    if e > 0 {
      LargeFactor(n, q, p, h);
    }
  }

  lemma NoRemainder(n: nat, q: nat, r: nat, p: int)
    requires p >= 1 && r < p && n == q * p + r && Nearest(n, p) == n
    ensures r == 0
  {
    NearestAt(q, r, p);
    hide Nearest;
    assert (q + 1) * p == q * p + p;
  }

  lemma LargeFactor(n: nat, q: nat, p: int, h: int)
    requires h >= 1 && p == 2 * h && n == q * p && n > TWO_53 * h
    ensures q > TWO_53 / 2
  {
    assert q * p == (2 * q) * h;
    FactorLess(TWO_53, 2 * q, h);
  }

  // ----- What rounding does -----

  lemma Exact(n: int)
    requires -TWO_53 <= n <= TWO_53
    ensures ToNumber(n) == n && IsNumber(n)
  {
  }

  lemma {:induction false} Doubled(q: nat, i: nat, j: nat) returns (m: nat)
    requires i <= j
    ensures m * Pow2(i) == q * Pow2(j)
    decreases j
  {
    if i == j {
      m := q;
    } else {
      m := Doubled(2 * q, i, j - 1);
      assert (2 * q) * Pow2(j - 1) == q * (2 * Pow2(j - 1));
    }
  }

  lemma MultipleIsNumber(q: nat, j: nat)
    requires q <= TWO_53
    ensures q * Pow2(j) >= 0 && IsNumber(q * Pow2(j))
  {
    hide *;
    ProductOrder(0, q, Pow2(j));
    ProductOrder(q, TWO_53, Pow2(j));
    var n := q * Pow2(j);
    ExponentAtMost(n, j);
    var m := Doubled(q, Exponent(n), j);
    SpacedIsNumber(n, m);
  }

  lemma ProductOrder(a: int, b: int, p: int)
    requires p >= 1 && a <= b
    ensures a * p <= b * p
  {
  }

  lemma ExponentAtMost(n: nat, j: nat)
    requires n <= TWO_53 * Pow2(j)
    ensures Exponent(n) <= j
  {
    var e := Exponent(n);
    Pow2Order(j, if j < e then e - 1 else j);
  }

  lemma SpacedIsNumber(n: nat, m: nat)
    requires n == m * Pow2(Exponent(n))
    ensures IsNumber(n)
  {
    hide Exponent, Pow2;
    NearestAt(m, 0, Pow2(Exponent(n)));
  }

  /** Rounding gives a number, so it changes nothing the second time. */
  lemma RoundedIsNumber(n: int)
    ensures IsNumber(ToNumber(n)) && (n >= 0 ==> ToNumber(n) >= 0)
  {
    hide Pow2, Exponent;
    NearestIsNumber(if n < 0 then -n else n);
  }

  lemma NearestIsNumber(n: nat)
    ensures var m := Nearest(n, Pow2(Exponent(n))); m >= 0 && IsNumber(m) && IsNumber(-m)
  {
    var e := Exponent(n);
    hide Pow2, Exponent, IsNumber;
    var q, r := Split(n, Pow2(e));
    NearestAt(q, r, Pow2(e));
    MultipleIsNumber(q, e);
    if q < TWO_53 {
      MultipleIsNumber(q + 1, e);
    }
    Opposite(Nearest(n, Pow2(e)));
  }

  lemma Opposite(n: nat)
    requires IsNumber(n)
    ensures IsNumber(0 - n)
  {
  }

  lemma SuccessorOfTop(n: nat, e: nat)
    requires n == TWO_53 * Pow2(e)
    ensures ToNumber(n + 1) == n && !Increments(n)
  {
    var p := Pow2(e + 1);
    assert p == 2 * Pow2(e);
    ExponentIs(n + 1, e + 1);
    NearestAt(TWO_53 / 2, 1, p);
    hide Exponent, Pow2, Nearest;
    assert n == (TWO_53 / 2) * p;
    if Pow2(e) > 1 {
      assert n >= 2 * TWO_53;
    }
  }

  lemma SuccessorWithin(n: nat, q: nat, e: nat)
    requires e > 0 && n == q * Pow2(e) && TWO_53 / 2 < q < TWO_53
    ensures ToNumber(n + 1) >= n && (ToNumber(n + 1) > n <==> Increments(n))
  {
    var p, h := Pow2(e), Pow2(e - 1);
    WithinSpacing(n, q, p, h);
    ExponentIs(n + 1, e);
    NearestAt(q, 1, p);
    if e > 1 {
      assert h == 2 * Pow2(e - 2);
    }
    hide Pow2, Exponent, Nearest;
    RoundsUp(n, q, p, h);
  }

  lemma WithinSpacing(n: nat, q: nat, p: int, h: int)
    requires h >= 1 && p == 2 * h && n == q * p && TWO_53 / 2 < q < TWO_53
    ensures TWO_53 * h < n + 1 <= TWO_53 * p && (q + 1) * p == n + p
  {
    ProductOrder(TWO_53, 2 * q, h);
    ProductOrder(q + 1, TWO_53, p);
    assert (2 * q) * h == q * p;
  }

  /** Only the odd multiples of two are followed by a number that one more than them rounds to. */
  lemma RoundsUp(n: nat, q: nat, p: int, h: int)
    requires p == 2 * h && (h == 1 || h >= 2) && n == q * p && TWO_53 / 2 < q < TWO_53 && n >= TWO_53 * h
    ensures (2 == p && q % 2 == 1) <==> Increments(n)
  {
    if h == 1 {
      assert n == 2 * q;
    } else {
      ProductOrder(2, h, TWO_53);
    }
  }

  /** Adding one to a number never gives a smaller one, and a larger one exactly when it increments. */
  lemma Successor(n: nat)
    requires IsNumber(n)
    ensures ToNumber(n + 1) >= n && (ToNumber(n + 1) > n <==> Increments(n))
  {
    if n >= TWO_53 {
      var q, e := Shape(n);
      if q == TWO_53 {
        SuccessorOfTop(n, e);
      } else {
        SuccessorWithin(n, q, e);
      }
    }
  }
}
