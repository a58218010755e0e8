/** The prime field FE = PrimeField: the integers modulo an arbitrary prime P. */
module PrimeField {
  import opened Arith
  import opened Rings

  ghost predicate IsPrime(p: int) {
    p >= 2 && forall d {:trigger p % d} :: 1 < d < p ==> p % d != 0
  }

  type Prime = p: int | IsPrime(p) witness 2

  /** The modulus. It is not fixed: everything below holds for every prime. */
  const P: Prime

  type Fp = x: int | 0 <= x < P witness 0

  function ToFp(n: int): Fp {
    n % P
  }

  function FpAdd(a: Fp, b: Fp): Fp {
    ToFp(a + b)
  }

  function FpNeg(a: Fp): Fp {
    ToFp(0 - a)
  }

  function FpMul(a: Fp, b: Fp): Fp {
    ToFp(a * b)
  }

  const FP: Ring<Fp> := Ring(0, 1, FpAdd, FpNeg, FpMul)

  lemma ModUnique(n: int, q: int, x: int)
    requires n == q * P + x && 0 <= x < P
    ensures ToFp(n) == x
  {
    var d := n / P - q;
    assert d * P == x - n % P by {
      assert n == (n / P) * P + n % P;
      assert (n / P - q) * P == (n / P) * P - q * P;
    }
    MultipleIsLarge(d, P);
  }

  /** Integers that differ by a multiple of P are the same field element. */
  lemma Congruent(n: int, m: int, q: int)
    requires n == m + q * P
    ensures ToFp(n) == ToFp(m)
  {
    assert m == (m / P) * P + m % P;
    assert n == (m / P + q) * P + m % P by {
      assert (m / P + q) * P == (m / P) * P + q * P;
    }
    ModUnique(n, m / P + q, m % P);
  }

  lemma Quotient(n: int, m: int) returns (q: int)
    requires ToFp(n) == ToFp(m)
    ensures n == m + q * P
  {
    q := n / P - m / P;
    assert n == (n / P) * P + n % P;
    assert m == (m / P) * P + m % P;
    assert (n / P - m / P) * P == (n / P) * P - (m / P) * P;
  }

  lemma ZeroDifference(a: int, b: int)
    requires ToFp(a - b) == 0
    ensures ToFp(a) == ToFp(b)
  {
    ToFpSmall(0);
    var q := Quotient(a - b, 0);
    Congruent(a, b, q);
  }

  lemma ToFpSmall(n: int)
    requires 0 <= n < P
    ensures ToFp(n) == n
  {
    ModUnique(n, 0, n);
  }

  lemma AddHom(a: int, b: int)
    ensures FpAdd(ToFp(a), ToFp(b)) == ToFp(a + b)
  {
    var x, y := a / P, b / P;
    assert a == ToFp(a) + x * P && b == ToFp(b) + y * P;
    assert (x + y) * P == x * P + y * P;
    Congruent(a + b, ToFp(a) + ToFp(b), x + y);
  }

  lemma NegHom(a: int)
    ensures FpNeg(ToFp(a)) == ToFp(-a)
  {
    var x := a / P;
    assert a == ToFp(a) + x * P;
    assert (-x) * P == -(x * P);
    Congruent(-a, 0 - ToFp(a), -x);
  }

  lemma MulHom(a: int, b: int)
    ensures FpMul(ToFp(a), ToFp(b)) == ToFp(a * b)
  {
    var x, y := a / P, b / P;
    var u, v := ToFp(a), ToFp(b);
    assert a == u + x * P && b == v + y * P;
    calc {
      a * b;
      (u + x * P) * (v + y * P);
      u * v + u * (y * P) + (x * P) * v + (x * P) * (y * P);
      { assert u * (y * P) == (u * y) * P; assert (x * P) * v == (x * v) * P; assert (x * P) * (y * P)
          == (x * P * y) * P; }
      u * v + (u * y) * P + (x * v) * P + (x * P * y) * P;
      u * v + (u * y + x * v + x * P * y) * P;
    }
    Congruent(a * b, u * v, u * y + x * v + x * P * y);
  }

  lemma SubHom(a: int, b: int)
    ensures FP.Sub(ToFp(a), ToFp(b)) == ToFp(a - b)
  {
    NegHom(b);
    AddHom(a, -b);
  }

  lemma Canonical(a: Fp)
    ensures ToFp(a) == a
  {
    ToFpSmall(a);
  }

  lemma FpLaws3(a: Fp, b: Fp, c: Fp)
    ensures FpAdd(FpAdd(a, b), c) == FpAdd(a, FpAdd(b, c))
    ensures FpMul(FpMul(a, b), c) == FpMul(a, FpMul(b, c))
    ensures FpMul(a, FpAdd(b, c)) == FpAdd(FpMul(a, b), FpMul(a, c))
  {
    Canonical(a);
    Canonical(c);
    AddHom(a + b, c);
    AddHom(a, b + c);
    MulHom(a * b, c);
    MulHom(a, b * c);
    assert (a * b) * c == a * (b * c);
    MulHom(a, b + c);
    AddHom(a * b, a * c);
    assert a * (b + c) == a * b + a * c;
  }

  lemma FpLaws1(a: Fp)
    ensures FpAdd(0, a) == a && FpAdd(a, FpNeg(a)) == 0 && FpMul(1, a) == a
  {
    Canonical(a);
    AddHom(a, 0 - a);
    ToFpSmall(0);
  }

  lemma FpIsRing()
    ensures IsRing(FP)
  {
    forall a: Fp, b: Fp, c: Fp
      ensures FP.add(FP.add(a, b), c) == FP.add(a, FP.add(b, c))
      ensures FP.mul(FP.mul(a, b), c) == FP.mul(a, FP.mul(b, c))
      ensures FP.mul(a, FP.add(b, c)) == FP.add(FP.mul(a, b), FP.mul(a, c))
    {
      FpLaws3(a, b, c);
    }
    forall a: Fp
      ensures FP.add(FP.zero, a) == a && FP.add(a, FP.neg(a)) == FP.zero && FP.mul(FP.one, a) == a
    {
      FpLaws1(a);
    }
    forall a: Fp, b: Fp
      ensures FP.add(a, b) == FP.add(b, a) && FP.mul(a, b) == FP.mul(b, a)
    {
      assert a * b == b * a;
    }
  }

  /** A prime that divides n * b, with 0 < n < P, divides b. */
  lemma {:induction false} EuclidStep(n: int, b: int, k: int)
    requires 0 < n < P
    requires n * b == k * P
    ensures ToFp(b) == 0
    decreases n
  {
    if n == 1 {
      ModUnique(b, k, 0);
    } else {
      var q, s := P / n, P % n;
      assert P == q * n + s;
      calc {
        s * b;
        (P - q * n) * b;
        P * b - q * (n * b);
        P * b - q * (k * P);
        { assert q * (k * P) == (q * k) * P; }
        (b - q * k) * P;
      }
      EuclidStep(s, b, b - q * k);
    }
  }

  lemma NoZeroDivisors(a: Fp, b: Fp)
    requires FpMul(a, b) == 0
    ensures a == 0 || b == 0
  {
    if a != 0 {
      assert a * b == (a * b / P) * P;
      EuclidStep(a, b, a * b / P);
      Canonical(b);
    }
  }

  lemma FpIsDomain()
    ensures IsDomain(FP)
  {
    FpIsRing();
    forall a: Fp, b: Fp | FP.mul(a, b) == FP.zero
      ensures a == FP.zero || b == FP.zero
    {
      NoZeroDivisors(a, b);
    }
  }
}
