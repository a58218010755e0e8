/** Fixed-point multiplication: what its checks decide, and whole verifications with bits of the prime field only. */
module CheddaFpMult {
  import opened Arith
  import opened PrimeField
  import opened Bits
  import opened Fdabit

  // ---- what the two checked equations decide ----

  function BitFp(b: bool): Fp {
    if b then 1 else 0
  }

  /** z - (all bits), as accumulated: bits from f on are scaled by 2^(i - f), then by 2^f. */
  function FullRemainder(z: Fp, bs: seq<bool>, f: nat): Fp {
    if bs == [] then z
    else
      var n := |bs| - 1;
      var rest := FullRemainder(z, bs[..n], f);
      if n < f then FP.Sub(rest, FpMul(ToFp(Pow2(n)), BitFp(bs[n])))
      else FP.Sub(rest, FpMul(ToFp(Pow2(f)), FpMul(ToFp(Pow2(n - f)), BitFp(bs[n]))))
  }

  /** z_h - (the bits from f on). */
  function HighRemainder(zh: Fp, bs: seq<bool>, f: nat): Fp {
    if bs == [] then zh
    else
      var n := |bs| - 1;
      var rest := HighRemainder(zh, bs[..n], f);
      if n < f then rest else FP.Sub(rest, FpMul(ToFp(Pow2(n - f)), BitFp(bs[n])))
  }

  function HighPart(bs: seq<bool>, f: nat): nat {
    if |bs| <= f then 0 else MaskSum(bs[f..])
  }

  lemma BitTerm(p: nat, b: bool)
    ensures FpMul(ToFp(p), BitFp(b)) == ToFp(if b then p else 0)
  {
    ToFpSmall(0);
    ToFpSmall(1);
    MulHom(p, if b then 1 else 0);
  }

  lemma {:induction false} FullIs(z: Fp, bs: seq<bool>, f: nat)
    ensures FullRemainder(z, bs, f) == ToFp(z - MaskSum(bs))
  {
    hide ToFp, IsPrime, Pow2, FpMul;
    if bs == [] {
      Canonical(z);
    } else {
      var n := |bs| - 1;
      FullIs(z, bs[..n], f);
      var w := if bs[n] then Pow2(n) else 0;
      if n < f {
        BitTerm(Pow2(n), bs[n]);
      } else {
        BitTerm(Pow2(n - f), bs[n]);
        MulHom(Pow2(f), if bs[n] then Pow2(n - f) else 0);
        Pow2Add(f, n - f);
      }
      SubHom(z - MaskSum(bs[..n]), w);
    }
  }

  lemma {:induction false} HighIs(zh: Fp, bs: seq<bool>, f: nat)
    ensures HighRemainder(zh, bs, f) == ToFp(zh - HighPart(bs, f))
  {
    if bs == [] {
      Canonical(zh);
    } else {
      hide ToFp, IsPrime, Pow2;
      var n := |bs| - 1;
      HighIs(zh, bs[..n], f);
      HighGrows(bs, f);
      if n >= f {
        BitTerm(Pow2(n - f), bs[n]);
        SubHom(zh - HighPart(bs[..n], f), if bs[n] then Pow2(n - f) else 0);
      }
    }
  }

  lemma HighGrows(bs: seq<bool>, f: nat)
    requires bs != []
    ensures var n := |bs| - 1;
            HighPart(bs, f) == HighPart(bs[..n], f) + if n >= f && bs[n] then Pow2(n - f) else 0
  {
    var n := |bs| - 1;
    if n >= f {
      assert bs[f..][..n - f] == bs[..n][f..];
      assert n == f ==> bs[..n][f..] == [];
    }
  }

  /** The bits split at position f. */
  lemma {:induction false} SplitAt(bs: seq<bool>, f: nat)
    requires f <= |bs|
    ensures MaskSum(bs) == MaskSum(bs[..f]) + Pow2(f) * HighPart(bs, f)
    decreases |bs|
  {
    var n := |bs| - 1;
    if f == |bs| {
      assert bs[..f] == bs;
    } else {
      SplitAt(bs[..n], f);
      assert bs[..n][..f] == bs[..f];
      HighGrows(bs, f);
      Pow2Add(f, n - f);
      var h, w := HighPart(bs[..n], f), if bs[n] then Pow2(n - f) else 0;
      assert Pow2(f) * (h + w) == Pow2(f) * h + Pow2(f) * w;
    }
  }

  lemma HighIsQuotient(bs: seq<bool>, f: nat)
    requires f <= |bs|
    ensures HighPart(bs, f) == MaskSum(bs) / Pow2(f)
  {
    SplitAt(bs, f);
    MaskSumBound(bs[..f]);
    DivModUnique(MaskSum(bs), Pow2(f), HighPart(bs, f), MaskSum(bs[..f]));
  }

  function BoolBits(v: nat, n: nat): (bs: seq<bool>)
    ensures |bs| == n
  {
    if n == 0 then [] else BoolBits(v, n - 1) + [v / Pow2(n - 1) % 2 == 1]
  }

  lemma {:induction false} BoolBitsSum(v: nat, n: nat)
    ensures MaskSum(BoolBits(v, n)) == v % Pow2(n)
  {
    if n > 0 {
      BoolBitsSum(v, n - 1);
      var p := Pow2(n - 1);
      var bs := BoolBits(v, n);
      assert bs[..n - 1] == BoolBits(v, n - 1);
      assert MaskSum(bs) == v % p + if v / p % 2 == 1 then p else 0;
      hide Pow2, MaskSum, BoolBits;
      NextBit(v, p);
      assert Pow2(n) == 2 * p by {
        DoublePower(n);
      }
    } else {
      assert Pow2(0) == 1;
    }
  }

  lemma DoublePower(n: nat)
    requires n > 0
    ensures Pow2(n) == 2 * Pow2(n - 1)
  {
  }

  lemma NextBit(v: nat, p: nat)
    requires p > 0
    ensures v % (2 * p) == v % p + if v / p % 2 == 1 then p else 0
  {
    var q, s := v / p, v % p;
    var h, b := q / 2, q % 2;
    assert v == q * p + s;
    assert q * p == h * (2 * p) + b * p by {
      assert q == 2 * h + b;
    }
    BitAndRest(b, p, s);
    DivModUnique(v, 2 * p, h, b * p + s);
  }

  lemma BitAndRest(b: nat, p: nat, s: nat)
    requires b <= 1 && s < p
    ensures b * p + s < 2 * p && b * p == if b == 1 then p else 0
  {
  }

  /** The product, as an element of the field, fits in k + 2f bits and z_h is its part above f bits. */
  predicate Truncates(x: Fp, y: Fp, zh: Fp, k: nat, f: nat) {
    var z := FpMul(x, y);
    z < Pow2(k + 2 * f) && zh == z / Pow2(f)
  }

  /** The bits of a correction meet both checked equations. */
  ghost predicate Satisfies(x: Fp, y: Fp, zh: Fp, k: nat, f: nat, bs: seq<bool>) {
    |bs| == k + 2 * f && FullRemainder(FpMul(x, y), bs, f) == 0 && HighRemainder(zh, bs, f) == 0
  }

  /** When k + 2f bits fit the modulus, bits that satisfy both checked equations exist exactly when x * y mod p is
      below 2^(k + 2f) and z_h = floor((x * y mod p) / 2^f). */
  lemma WithRoom(x: Fp, y: Fp, zh: Fp, k: nat, f: nat)
    requires Pow2(k + 2 * f) <= P
    ensures (exists bs :: Satisfies(x, y, zh, k, f, bs)) <==> Truncates(x, y, zh, k, f)
  {
    hide FullRemainder, HighRemainder, FpMul, ToFp, Pow2, HighPart, MaskSum, BoolBits;
    var n, z := k + 2 * f, FpMul(x, y);
    if bs :| Satisfies(x, y, zh, k, f, bs) {
      BitsDecide(z, zh, bs, f);
      MaskSumBound(bs);
    }
    if Truncates(x, y, zh, k, f) {
      ProductDecides(x, y, zh, k, f);
      assert Satisfies(x, y, zh, k, f, BoolBits(z, n));
    }
  }

  /** The bits of the product itself, as an honest prover takes them, satisfy both equations exactly when the triple is
      a truncated product; for any bit sizes. */
  lemma ProductDecides(x: Fp, y: Fp, zh: Fp, k: nat, f: nat)
    ensures Satisfies(x, y, zh, k, f, BoolBits(FpMul(x, y), k + 2 * f)) <==> Truncates(x, y, zh, k, f)
  {
    hide FullRemainder, HighRemainder, FpMul, ToFp, Pow2, HighPart, MaskSum, BoolBits, IsPrime;
    var n, z := k + 2 * f, FpMul(x, y);
    var bs := BoolBits(z, n);
    BoolBitsSum(z, n);
    SmallRemainder(z, Pow2(n));
    FullIs(z, bs, f);
    HighIs(zh, bs, f);
    HighIsQuotient(bs, f);
    QuotientSmaller(MaskSum(bs), Pow2(f));
    SameElement(z, MaskSum(bs));
    SameElement(zh, HighPart(bs, f));
  }

  lemma SmallRemainder(z: nat, p: nat)
    requires p > 0
    ensures z % p <= z && (z % p == z <==> z < p)
  {
    var q, s := z / p, z % p;
    assert z == q * p + s;
    assert q * p >= 0;
    if z < p {
      DivModUnique(z, p, 0, z);
    }
  }

  lemma BitsDecide(z: Fp, zh: Fp, bs: seq<bool>, f: nat)
    requires f <= |bs| && Pow2(|bs|) <= P
    ensures FullRemainder(z, bs, f) == 0 && HighRemainder(zh, bs, f) == 0 <==> MaskSum(bs) == z && zh == z / Pow2(f)
  {
    FullIs(z, bs, f);
    HighIs(zh, bs, f);
    MaskSumBound(bs);
    HighIsQuotient(bs, f);
    QuotientSmaller(MaskSum(bs), Pow2(f));
    hide FullRemainder, HighRemainder, Pow2, HighPart, MaskSum;
    SameElement(z, MaskSum(bs));
    SameElement(zh, HighPart(bs, f));
  }

  lemma SameElement(z: Fp, v: nat)
    requires v < P
    ensures ToFp(z - v) == 0 <==> z == v
  {
    ToFpSmall(0);
    if ToFp(z - v) == 0 {
      ZeroDifference(z, v);
      ToFpSmall(v);
      Canonical(z);
    }
  }

  /** Without room for k + 2f bits, but with room for f, the equations can be met by another number: p more than the
      product, whose upper part is a different one. */
  lemma WithoutRoom(x: Fp, y: Fp, zh: Fp, k: nat, f: nat)
    requires FpMul(x, y) + P < Pow2(k + 2 * f) && Pow2(f) <= P && zh == (FpMul(x, y) + P) / Pow2(f)
    ensures Satisfies(x, y, zh, k, f, BoolBits(FpMul(x, y) + P, k + 2 * f)) && !Truncates(x, y, zh, k, f)
  {
    hide FullRemainder, HighRemainder, FpMul, Pow2, ToFp, IsPrime, BoolBits, MaskSum, HighPart;
    var z := FpMul(x, y);
    Congruent(z - (z + P), 0, -1);
    ToFpSmall(0);
    OtherNumber(z, zh, z + P, k + 2 * f, f);
    QuotientGrows(z, P, Pow2(f));
  }

  /** The bits of any number that is z modulo p, and whose upper part is z_h modulo p, satisfy both equations. */
  lemma OtherNumber(z: Fp, zh: Fp, v: nat, n: nat, f: nat)
    requires f <= n && v < Pow2(n) && ToFp(z - v) == 0 && ToFp(zh - v / Pow2(f)) == 0
    ensures FullRemainder(z, BoolBits(v, n), f) == 0 && HighRemainder(zh, BoolBits(v, n), f) == 0
  {
    hide FullRemainder, HighRemainder, Pow2, ToFp, IsPrime, BoolBits, MaskSum, HighPart;
    var bs := BoolBits(v, n);
    BoolBitsSum(v, n);
    SmallRemainder(v, Pow2(n));
    FullIs(z, bs, f);
    HighIs(zh, bs, f);
    HighIsQuotient(bs, f);
  }

  /** Not even room for f bits: 0 * 0 = 2^f + low modulo p for some low below 2^f, and the upper part of that is 1. */
  lemma WithoutFraction(k: nat, f: nat)
    requires P < Pow2(f)
    ensures exists bs :: Satisfies(0, 0, 1, k, f, bs)
    ensures !Truncates(0, 0, 1, k, f)
  {
    ModulusAtLeastTwo();
    hide FullRemainder, HighRemainder, Pow2, IsPrime, BoolBits, MaskSum, HighPart, ToFp;
    var low := FpNeg(ToFp(Pow2(f)));
    var v := Pow2(f) + low;
    OnePower();
    Pow2Monotone(f + 1, k + 2 * f);
    DoublePower(f + 1);
    DivModUnique(v, Pow2(f), 1, low);
    var power: int := Pow2(f);
    NegHom(power);
    Canonical(low);
    var q := Quotient(-power, low);
    Congruent(0 - v, 0, q);
    ToFpSmall(0);
    MulHom(0, 0);
    OtherNumber(0, 1, v, k + 2 * f, f);
    assert Satisfies(0, 0, 1, k, f, BoolBits(v, k + 2 * f));
    DivModUnique(0, Pow2(f), 0, 0);
  }

  /** Without fractional bits both equations say the same, with or without room. */
  lemma WithoutFractionalBits(x: Fp, y: Fp, zh: Fp, k: nat)
    ensures (exists bs :: Satisfies(x, y, zh, k, 0, bs)) <==> Truncates(x, y, zh, k, 0)
  {
    hide FullRemainder, HighRemainder, FpMul, ToFp, Pow2, HighPart, MaskSum, BoolBits, IsPrime;
    var z := FpMul(x, y);
    if Pow2(k) <= P {
      WithRoom(x, y, zh, k, 0);
    } else {
      assert z < Pow2(k);
      if bs :| Satisfies(x, y, zh, k, 0, bs) {
        FullIs(z, bs, 0);
        HighIs(zh, bs, 0);
        HighIsQuotient(bs, 0);
        OnePower();
        SameResidue(z, zh, MaskSum(bs));
      }
      if Truncates(x, y, zh, k, 0) {
        ProductDecides(x, y, zh, k, 0);
        assert Satisfies(x, y, zh, k, 0, BoolBits(z, k));
      }
      OnePower();
    }
  }

  lemma ModulusAtLeastTwo()
    ensures P >= 2
  {
  }

  lemma OnePower()
    ensures Pow2(0) == 1
  {
  }

  lemma SameResidue(a: Fp, b: Fp, v: nat)
    requires ToFp(a - v) == 0 && ToFp(b - v) == 0
    ensures a == b
  {
    ZeroDifference(a, v);
    ZeroDifference(b, v);
    Canonical(a);
    Canonical(b);
  }

  /** The checks mean truncation: bits that satisfy both equations exist exactly for truncated products. */
  ghost predicate MeansTruncation(k: nat, f: nat) {
    forall x: Fp, y: Fp, zh: Fp :: (exists bs :: Satisfies(x, y, zh, k, f, bs)) <==> Truncates(x, y, zh, k, f)
  }

  /** Exactly when the checks mean truncation: without fractional bits always, otherwise when k + 2f bits fit. */
  lemma TruncationExact(k: nat, f: nat)
    ensures MeansTruncation(k, f) <==> f == 0 || Pow2(k + 2 * f) <= P
  {
    ModulusAtLeastTwo();
    hide Satisfies, Truncates, Pow2, IsPrime, FpMul;
    if f == 0 || Pow2(k + 2 * f) <= P {
      forall x: Fp, y: Fp, zh: Fp ensures (exists bs :: Satisfies(x, y, zh, k, f, bs)) <==> Truncates(x, y, zh, k, f) {
        if f == 0 {
          WithoutFractionalBits(x, y, zh, k);
        } else {
          WithRoom(x, y, zh, k, f);
        }
      }
    } else if P < Pow2(f) {
      WithoutFraction(k, f);
      var zh: Fp := 1;
      assert !((exists bs :: Satisfies(0, 0, zh, k, f, bs)) <==> Truncates(0, 0, zh, k, f));
    } else {
      ZeroWithoutRoom(k, f);
      var zh: Fp := P / Pow2(f);
      assert !((exists bs :: Satisfies(0, 0, zh, k, f, bs)) <==> Truncates(0, 0, zh, k, f));
    }
  }

  lemma ZeroWithoutRoom(k: nat, f: nat)
    requires f > 0 && Pow2(f) <= P < Pow2(k + 2 * f)
    ensures P / Pow2(f) < P
    ensures (exists bs :: Satisfies(0, 0, P / Pow2(f), k, f, bs)) && !Truncates(0, 0, P / Pow2(f), k, f)
  {
    DoublePower(f);
    hide Satisfies, Truncates, Pow2, IsPrime, ToFp;
    MulHom(0, 0);
    ToFpSmall(0);
    HalfAtMost(P, Pow2(f));
    WithoutRoom(0, 0, P / Pow2(f), k, f);
  }

  lemma HalfAtMost(p: nat, d: nat)
    requires d >= 2 && p > 0
    ensures p / d < p
  {
    var q := p / d;
    assert p == q * d + p % d;
    assert q * d >= 2 * q by {
      assert q * (d - 2) >= 0;
    }
  }

  lemma QuotientGrows(z: nat, p: nat, d: nat)
    requires 0 < d <= p
    ensures (z + p) / d > z / d
  {
    assert (z + p) == (z / d + 1) * d + (z % d + p - d) by {
      assert z == (z / d) * d + z % d;
      assert (z / d + 1) * d == (z / d) * d + d;
    }
    var e := (z + p) / d - (z / d + 1);
    assert (z + p) == ((z + p) / d) * d + (z + p) % d;
    assert e * d == ((z + p) / d) * d - (z / d + 1) * d;
    MultipleIsLarge(e, d);
  }

  // ---- random triples ----

  /** `random_fpm_triples_prover`: the bounds on the factors keep the product below 2^(k + 2f). */
  method RandomTriple(a: nat, b: nat, k: nat, f: nat) returns (x: nat, y: nat, z: nat)
    requires k / 2 + f >= 1      // the program divides by 2^(k/2 + f) - 1
    ensures x * y < Pow2(k + 2 * f) && z == (x * y) / Pow2(f)
    ensures Pow2(k + 2 * f) <= P ==> x < P && y < P && z < P && Truncates(x, y, z, k, f)
  {
    hide Pow2, IsPrime, Truncates, ToFp;
    assert Pow2(k / 2 + f) >= 2 by {
      DoublePower(k / 2 + f);
    }
    var m := Pow2(k / 2 + f) - 1;
    x, y := a % m, b % m;
    z := (x * y) / Pow2(f);
    ProductFits(x, y, k, f);
    if Pow2(k + 2 * f) <= P {
      FactorsFit(x, y, k, f);
      QuotientSmaller(x * y, Pow2(f));
      TripleTruncates(x, y, z, k, f);
    }
  }

  lemma TripleTruncates(x: Fp, y: Fp, z: Fp, k: nat, f: nat)
    requires x * y < Pow2(k + 2 * f) <= P && z == (x * y) / Pow2(f)
    ensures Truncates(x, y, z, k, f)
  {
    hide Pow2, IsPrime, ToFp;
    assert x * y >= 0;
    ToFpSmall(x * y);
  }

  lemma ProductFits(x: nat, y: nat, k: nat, f: nat)
    requires x < Pow2(k / 2 + f) && y < Pow2(k / 2 + f)
    ensures x * y < Pow2(k + 2 * f)
  {
    hide Pow2;
    var h := k / 2 + f;
    Pow2Add(h, h);
    Pow2Monotone(h + h, k + 2 * f);
    SmallerProduct(x, y, Pow2(h));
  }

  lemma SmallerProduct(x: nat, y: nat, p: nat)
    requires x < p && y < p
    ensures x * y < p * p
  {
    assert x * y <= x * p by {
      assert x * (p - y) >= 0;
    }
    assert x * p < p * p by {
      assert (p - x) * p > 0;
    }
  }

  lemma FactorsFit(x: nat, y: nat, k: nat, f: nat)
    requires x < Pow2(k / 2 + f) && y < Pow2(k / 2 + f) && Pow2(k + 2 * f) <= P
    ensures x < P && y < P
  {
    hide IsPrime, Pow2;
    Pow2Monotone(k / 2 + f, k + 2 * f);
  }
}
