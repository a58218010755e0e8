/** Small facts about natural numbers: products as repeated addition, powers of two, rounded division. */
module Arith {

  function Times(n: nat, b: nat): nat {
    if n == 0 then 0 else Times(n - 1, b) + b
  }

  lemma {:induction false} TimesIsProduct(n: nat, b: nat)
    ensures Times(n, b) == n * b
  {
    if n > 0 {
      TimesIsProduct(n - 1, b);
    }
  }

  lemma NoTimes(k: nat)
    ensures Times(0, k) == 0
  {
  }

  lemma NextTimes(i: nat, k: nat)
    ensures Times(i + 1, k) == Times(i, k) + k
  {
  }

  lemma {:induction false} TimesMonotone(m: nat, n: nat, b: nat)
    requires m <= n
    ensures Times(m, b) <= Times(n, b)
  {
    if m < n {
      TimesMonotone(m, n - 1, b);
    }
  }

  function Pow2(k: nat): (p: nat)
    ensures p >= 1
  {
    if k == 0 then 1 else 2 * Pow2(k - 1)
  }

  lemma {:induction false} Pow2Add(m: nat, n: nat)
    ensures Pow2(m + n) == Pow2(m) * Pow2(n)
  {
    if n > 0 {
      Pow2Add(m, n - 1);
      assert Pow2(m) * (2 * Pow2(n - 1)) == 2 * (Pow2(m) * Pow2(n - 1));
    }
  }

  lemma {:induction false} Pow2Monotone(m: nat, n: nat)
    requires m <= n
    ensures Pow2(m) <= Pow2(n)
  {
    if m < n {
      Pow2Monotone(m, n - 1);
    }
  }

  /** The exponent of the least power of two that is at least n. */
  function CeilLog2(n: nat): (m: nat)
    requires n > 0
    ensures n <= Pow2(m) && (m == 0 || Pow2(m - 1) < n)
    decreases n
  {
    if n == 1 then 0
    else
      var m := CeilLog2((n + 1) / 2);
      m + 1
  }

  /** The exponent of the greatest power of two that is at most n. */
  function FloorLog2(n: nat): (m: nat)
    requires n > 0
    ensures Pow2(m) <= n < Pow2(m + 1)
    decreases n
  {
    if n == 1 then 0 else FloorLog2(n / 2) + 1
  }

  lemma MultipleIsLarge(d: int, m: int)
    requires m > 0
    ensures d >= 1 ==> d * m >= m
    ensures d <= -1 ==> d * m <= -m
  {
    if d >= 1 {
      assert (d - 1) * m >= 0;
    } else if d <= -1 {
      assert (-1 - d) * m >= 0;
    }
  }

  lemma MulOrder(a: int, b: int, c: int)
    requires c > 0 && a * c < b * c
    ensures a < b
  {
    var d := b - a;
    assert d * c == b * c - a * c;
    MultipleIsLarge(d, c);
  }

  lemma MulMonotone(a: int, b: int, c: int)
    requires a <= b && c >= 0
    ensures a * c <= b * c
  {
    assert (b - a) * c >= 0;
    assert (b - a) * c == b * c - a * c;
  }

  /** Division with remainder on natural numbers. */
  function Quot(a: nat, d: nat): (q: nat)
    requires d > 0
    ensures q * d <= a < q * d + d
  {
    if a < d then 0 else 1 + Quot(a - d, d)
  }

  function Rem(a: nat, d: nat): (s: nat)
    requires d > 0
    ensures s < d && a == Quot(a, d) * d + s
  {
    a - Quot(a, d) * d
  }

  lemma QuotientIs(a: nat, d: nat, q: nat, s: nat)
    requires d > 0 && a == q * d + s && s < d
    ensures Quot(a, d) == q && Rem(a, d) == s
  {
    var e := Quot(a, d) - q;
    assert e * d == Quot(a, d) * d - q * d;
    MultipleIsLarge(e, d);
  }

  lemma DivTwice(z: nat, a: nat, b: nat)
    requires a > 0 && b > 0 && a * b > 0
    ensures Quot(Quot(z, a), b) == Quot(z, a * b)
  {
    var q, s := Quot(z, a), Rem(z, a);
    var q', s' := Quot(q, b), Rem(q, b);
    DivTwiceSum(z, a, b, q, s, q', s');
    QuotientIs(z, a * b, q', s' * a + s);
  }

  lemma DivTwiceSum(z: nat, a: nat, b: nat, q: nat, s: nat, q': nat, s': nat)
    requires z == q * a + s && s < a && q == q' * b + s' && s' < b
    ensures z == q' * (a * b) + (s' * a + s) && s' * a + s < a * b
  {
    assert (q' * b + s') * a == q' * (a * b) + s' * a;
    MulMonotone(s', b - 1, a);
    assert (b - 1) * a == a * b - a;
  }

  lemma DivBound(z: nat, a: nat, b: nat)
    requires a > 0 && z < a * b
    ensures Quot(z, a) < b
  {
    MulOrder(Quot(z, a), b, a);
  }

  lemma {:induction false} TimesAtLeast(n: nat, d: nat)
    requires d > 0
    ensures Times(n, d) >= n
  {
    if n > 0 {
      TimesAtLeast(n - 1, d);
    }
  }

  lemma QuotSmaller(a: nat, d: nat)
    requires d > 0
    ensures Quot(a, d) <= a
  {
    var q := Quot(a, d);
    TimesIsProduct(q, d);
    TimesAtLeast(q, d);
  }

  lemma RemSmaller(a: nat, d: nat)
    requires d > 0
    ensures Rem(a, d) <= a
  {
    var q := Quot(a, d);
    assert q * d >= 0;
  }

  lemma QuotientSmaller(a: nat, d: nat)
    requires d > 0
    ensures a / d <= a
  {
    TimesIsProduct(a / d, d);
    TimesAtLeast(a / d, d);
  }
}
