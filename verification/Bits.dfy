/** Bits as the elements 0 and 1 of a binary ring, their integer values, and the ripple-carry adder
    that every conversion protocol of the program runs. */
module Bits {
  import opened Arith
  import opened Rings
  import opened PrimeField

  ghost predicate IsBit<F>(r: Ring<F>, x: F) {
    x == r.zero || x == r.one
  }

  ghost predicate AreBits<F>(r: Ring<F>, xs: seq<F>) {
    forall i :: 0 <= i < |xs| ==> IsBit(r, xs[i])
  }

  function BitNat<F(==)>(r: Ring<F>, x: F): (n: nat)
    ensures n <= 1
  {
    if x == r.one then 1 else 0
  }

  /** Bits as numbers of the prime field. */
  function BitNumbers<F(==)>(r: Ring<F>, xs: seq<F>): (ys: seq<Fp>)
    ensures |ys| == |xs|
  {
    seq(|xs|, i requires 0 <= i < |xs| => BitNat(r, xs[i]) as Fp)
  }

  /** What a bit contributes at position n. */
  function BitWeight<F(==)>(r: Ring<F>, x: F, n: nat): nat {
    if x == r.one then Pow2(n) else 0
  }

  /** The integer with the given bits, least significant bit first. */
  function BitsValue<F(==)>(r: Ring<F>, xs: seq<F>): (v: nat)
    ensures v < Pow2(|xs|)
  {
    if xs == [] then 0
    else var n := |xs| - 1; BitsValue(r, xs[..n]) + BitWeight(r, xs[n], n)
  }

  lemma BitsValueSnoc<F>(r: Ring<F>, xs: seq<F>, x: F)
    ensures BitsValue(r, xs + [x]) == BitsValue(r, xs) + BitWeight(r, x, |xs|)
  {
    assert (xs + [x])[..|xs|] == xs;
  }

  /** The same integer read from the low end. */
  lemma {:induction false} BitsValueFront<F>(r: Ring<F>, xs: seq<F>)
    requires xs != []
    ensures BitsValue(r, xs) == BitNat(r, xs[0]) + 2 * BitsValue(r, xs[1..])
  {
    var n := |xs| - 1;
    if n == 0 {
      assert xs[..0] == [] && xs[1..] == [];
      assert Pow2(0) == 1;
    } else {
      BitsValueFront(r, xs[..n]);
      assert xs[..n][1..] == xs[1..][..n - 1];
      assert xs[1..][n - 1] == xs[n];
    }
  }

  /** Different bit sequences of the same length have different values. */
  lemma {:induction false} BitsValueInjective<F>(r: Ring<F>, xs: seq<F>, ys: seq<F>)
    requires |xs| == |ys| && AreBits(r, xs) && AreBits(r, ys) && BitsValue(r, xs) == BitsValue(r, ys)
    ensures xs == ys
  {
    hide BitsValue;
    if xs != [] {
      BitsValueFront(r, xs);
      BitsValueFront(r, ys);
      assert xs == [xs[0]] + xs[1..] && ys == [ys[0]] + ys[1..];
      assert BitNat(r, xs[0]) == BitNat(r, ys[0]);
      BitsValueInjective(r, xs[1..], ys[1..]);
    }
  }

  /** The bits of v. */
  function Binary<F>(r: Ring<F>, v: nat, n: nat): (xs: seq<F>)
    ensures |xs| == n
  {
    if n == 0 then [] else [if v % 2 == 1 then r.one else r.zero] + Binary(r, v / 2, n - 1)
  }

  lemma {:induction false} BinaryValue<F>(r: Ring<F>, v: nat, n: nat)
    requires r.zero != r.one && v < Pow2(n)
    ensures AreBits(r, Binary(r, v, n)) && BitsValue(r, Binary(r, v, n)) == v
  {
    if n > 0 {
      BinaryValue(r, v / 2, n - 1);
      var xs := Binary(r, v, n);
      assert xs[1..] == Binary(r, v / 2, n - 1);
      BitsValueFront(r, xs);
    }
  }

  // ---- conversions to the prime field ----

  /** `convert_bits_to_field`: doubling from the most significant bit down. */
  method ConvertBitsToField<F(==)>(r: Ring<F>, bits: seq<F>) returns (res: Fp)
    ensures res == ToFp(BitsValue(r, bits))
  {
    res := 0;
    ToFpSmall(0);
    var i := |bits|;
    assert bits[i..] == [];
    while i > 0
      invariant 0 <= i <= |bits|
      invariant res == ToFp(BitsValue(r, bits[i..]))
    {
      i := i - 1;
      ghost var high := BitsValue(r, bits[i + 1..]);
      var b: Fp := if bits[i] == r.one then 1 else 0;
      res := FpAdd(FpAdd(res, res), b);
      AddHom(high, high);
      ToFpSmall(b);
      AddHom(high + high, b);
      assert bits[i..][1..] == bits[i + 1..];
      BitsValueFront(r, bits[i..]);
    }
    assert bits[0..] == bits;
  }

  /** `power_two` */
  method PowerTwo(m: nat) returns (res: Fp)
    ensures res == ToFp(Pow2(m))
  {
    res := 1;
    ToFpSmall(1);
    for i := 0 to m
      invariant res == ToFp(Pow2(i))
    {
      AddHom(Pow2(i), Pow2(i));
      res := FpAdd(res, res);
    }
  }

  // ---- arithmetic of single bits ----

  lemma BinaryTables<F(!new)>(r: Ring<F>)
    requires IsBinary(r)
    ensures r.add(r.zero, r.zero) == r.zero && r.add(r.zero, r.one) == r.one
    ensures r.add(r.one, r.zero) == r.one && r.add(r.one, r.one) == r.zero
    ensures r.mul(r.zero, r.zero) == r.zero && r.mul(r.zero, r.one) == r.zero
    ensures r.mul(r.one, r.zero) == r.zero && r.mul(r.one, r.one) == r.one
    ensures r.neg(r.one) == r.one && r.neg(r.zero) == r.zero
  {
    AddZero(r, r.zero);
    AddZero(r, r.one);
    MulZero(r, r.zero);
    MulZero(r, r.one);
    MulOne(r, r.one);
    NegZero(r);
    AddNeg(r, r.one);
    CancelAdd(r, r.one, r.one, r.neg(r.one));
  }

  /** In a binary ring everything is its own opposite. */
  lemma SelfInverse<F(!new)>(r: Ring<F>, x: F)
    requires IsBinary(r)
    ensures r.add(x, x) == r.zero && r.neg(x) == x
  {
    MulOne(r, x);
    Distribute(r, x, r.one, r.one);
    MulZero(r, x);
    AddNeg(r, x);
    CancelAdd(r, x, x, r.neg(x));
  }

  lemma AddBits<F(!new)>(r: Ring<F>, x: F, y: F)
    requires IsBinary(r) && IsBit(r, x) && IsBit(r, y)
    ensures IsBit(r, r.add(x, y)) && IsBit(r, r.mul(x, y))
    ensures BitNat(r, r.add(x, y)) == if BitNat(r, x) == BitNat(r, y) then 0 else 1
    ensures BitNat(r, r.mul(x, y)) == BitNat(r, x) * BitNat(r, y)
  {
    BinaryTables(r);
  }

  // ---- the adder ----

  function NextCarry<F>(r: Ring<F>, x: F, y: F, c: F): F {
    r.add(c, r.mul(r.add(x, c), r.add(y, c)))
  }

  function SumBit<F>(r: Ring<F>, x: F, y: F, c: F): F {
    r.add(r.add(x, c), y)
  }

  /** At every position n, sum and carry hold what the three inputs hold together. */
  lemma FullAdder<F(!new)>(r: Ring<F>, x: F, y: F, c: F, n: nat)
    requires IsBinary(r) && IsBit(r, x) && IsBit(r, y) && IsBit(r, c)
    ensures IsBit(r, SumBit(r, x, y, c)) && IsBit(r, NextCarry(r, x, y, c))
    ensures BitWeight(r, SumBit(r, x, y, c), n) + BitWeight(r, NextCarry(r, x, y, c), n + 1)
         == BitWeight(r, x, n) + BitWeight(r, y, n) + BitWeight(r, c, n)
  {
    BinaryTables(r);
  }

  /** The carry into position i. */
  function CarryAt<F>(r: Ring<F>, xs: seq<F>, ys: seq<F>, i: nat): F
    requires i <= |xs| == |ys|
  {
    if i == 0 then r.zero else NextCarry(r, xs[i - 1], ys[i - 1], CarryAt(r, xs, ys, i - 1))
  }

  function SumBits<F>(r: Ring<F>, xs: seq<F>, ys: seq<F>, i: nat): (zs: seq<F>)
    requires i <= |xs| == |ys|
    ensures |zs| == i
  {
    if i == 0 then [] else SumBits(r, xs, ys, i - 1) + [SumBit(r, xs[i - 1], ys[i - 1], CarryAt(r, xs, ys, i - 1))]
  }

  lemma {:induction false} AdderBits<F(!new)>(r: Ring<F>, xs: seq<F>, ys: seq<F>, i: nat)
    requires IsBinary(r) && i <= |xs| == |ys| && AreBits(r, xs) && AreBits(r, ys)
    ensures AreBits(r, SumBits(r, xs, ys, i)) && IsBit(r, CarryAt(r, xs, ys, i))
  {
    hide SumBit, NextCarry, IsBinary;
    if i > 0 {
      AdderBits(r, xs, ys, i - 1);
      FullAdder(r, xs[i - 1], ys[i - 1], CarryAt(r, xs, ys, i - 1), i - 1);
    }
  }

  /** The sum bits and the last carry hold exactly the sum of the two integers, for every length. */
  lemma {:induction false} RippleCarryExact<F(!new)>(r: Ring<F>, xs: seq<F>, ys: seq<F>, i: nat)
    requires IsBinary(r) && i <= |xs| == |ys| && AreBits(r, xs) && AreBits(r, ys)
    ensures BitsValue(r, SumBits(r, xs, ys, i)) + BitWeight(r, CarryAt(r, xs, ys, i), i)
         == BitsValue(r, xs[..i]) + BitsValue(r, ys[..i])
  {
    hide SumBit, NextCarry, BitWeight, Pow2, BitsValue, SumBits, CarryAt;
    if i == 0 {
      AdderStart(r, xs, ys);
    } else {
      RippleCarryExact(r, xs, ys, i - 1);
      AdderBits(r, xs, ys, i - 1);
      FullAdder(r, xs[i - 1], ys[i - 1], CarryAt(r, xs, ys, i - 1), i - 1);
      AdderUnfold(r, xs, ys, i);
      PrefixValue(r, xs, i);
      PrefixValue(r, ys, i);
    }
  }

  lemma AdderStart<F>(r: Ring<F>, xs: seq<F>, ys: seq<F>)
    requires |xs| == |ys| && r.zero != r.one
    ensures BitsValue(r, SumBits(r, xs, ys, 0)) + BitWeight(r, CarryAt(r, xs, ys, 0), 0) == 0
    ensures BitsValue(r, xs[..0]) == BitsValue(r, ys[..0]) == 0
  {
  }

  lemma PrefixValue<F>(r: Ring<F>, xs: seq<F>, i: nat)
    requires 0 < i <= |xs|
    ensures BitsValue(r, xs[..i]) == BitsValue(r, xs[..i - 1]) + BitWeight(r, xs[i - 1], i - 1)
  {
    hide BitsValue, BitWeight;
    assert xs[..i] == xs[..i - 1] + [xs[i - 1]];
    BitsValueSnoc(r, xs[..i - 1], xs[i - 1]);
  }

  lemma AdderUnfold<F>(r: Ring<F>, xs: seq<F>, ys: seq<F>, i: nat)
    requires 0 < i <= |xs| == |ys|
    ensures var c := CarryAt(r, xs, ys, i - 1);
            && CarryAt(r, xs, ys, i) == NextCarry(r, xs[i - 1], ys[i - 1], c)
            && BitsValue(r, SumBits(r, xs, ys, i))
               == BitsValue(r, SumBits(r, xs, ys, i - 1)) + BitWeight(r, SumBit(r, xs[i - 1], ys[i - 1], c), i - 1)
  {
    hide BitsValue, BitWeight, SumBit, NextCarry;
    BitsValueSnoc(r, SumBits(r, xs, ys, i - 1), SumBit(r, xs[i - 1], ys[i - 1], CarryAt(r, xs, ys, i - 1)));
  }

  /** So the sum bits are the binary form of the sum modulo 2^n. */
  lemma AdderModulo<F(!new)>(r: Ring<F>, xs: seq<F>, ys: seq<F>)
    requires IsBinary(r) && |xs| == |ys| && AreBits(r, xs) && AreBits(r, ys)
    ensures var n := |xs|; var total := BitsValue(r, xs) + BitsValue(r, ys);
            && BitsValue(r, SumBits(r, xs, ys, n)) == total % Pow2(n)
            && BitNat(r, CarryAt(r, xs, ys, n)) == total / Pow2(n)
  {
    hide SumBits, CarryAt, BitsValue, IsBinary, Pow2;
    var n := |xs|;
    assert xs[..n] == xs && ys[..n] == ys;
    RippleCarryExact(r, xs, ys, n);
    DivModUnique(BitsValue(r, xs) + BitsValue(r, ys), Pow2(n), BitNat(r, CarryAt(r, xs, ys, n)),
                 BitsValue(r, SumBits(r, xs, ys, n)));
  }

  lemma DivModUnique(a: nat, d: nat, q: nat, s: nat)
    requires d > 0 && a == d * q + s && s < d
    ensures a % d == s && a / d == q
  {
    var e := a / d - q;
    assert e * d == (a / d) * d - q * d;
    MultipleIsLarge(e, d);
  }

  // ---- values against bits ----

  /** How far an edaBit's value is from its bits. */
  ghost function Discrepancy<F>(r: Ring<F>, bits: seq<F>, value: Fp): Fp {
    FP.Sub(value, ToFp(BitsValue(r, bits)))
  }

  /** x + y - 2^k * carry against the sum bits: the discrepancies add up. */
  lemma DiscrepanciesAdd<F(!new)>(r: Ring<F>, xs: seq<F>, ys: seq<F>, v: Fp, w: Fp)
    requires IsBinary(r) && |xs| == |ys| && AreBits(r, xs) && AreBits(r, ys)
    ensures var k := |xs|;
            var value := FP.add(FP.add(v, w), FP.mul(FpNeg(ToFp(Pow2(k))), BitNat(r, CarryAt(r, xs, ys, k))));
            Discrepancy(r, SumBits(r, xs, ys, k), value) == FP.add(Discrepancy(r, xs, v), Discrepancy(r, ys, w))
  {
    hide SumBits, CarryAt, BitsValue, Pow2;
    var k := |xs|;
    var x, y, s, c := BitsValue(r, xs), BitsValue(r, ys), BitsValue(r, SumBits(r, xs, ys, k)),
    BitNat(r, CarryAt(r, xs, ys, k));
    AdderModulo(r, xs, ys);
    assert x + y == Pow2(k) * c + s;
    FieldDiscrepancies(v, w, x, y, s, Pow2(k), c);
  }

  lemma FieldDiscrepancies(v: Fp, w: Fp, x: nat, y: nat, s: nat, t: nat, c: Fp)
    requires x + y == t * c + s
    ensures FP.Sub(FP.add(FP.add(v, w), FP.mul(FpNeg(ToFp(t)), c)), ToFp(s))
         == FP.add(FP.Sub(v, ToFp(x)), FP.Sub(w, ToFp(y)))
  {
    Canonical(v);
    Canonical(w);
    Canonical(c);
    SubHom(v, x);
    SubHom(w, y);
    AddHom(v - x, w - y);
    AddHom(v, w);
    NegHom(t);
    MulHom(0 - t, c);
    var u := (0 - t) * c;
    AddHom(v + w, u);
    SubHom(v + w + u, s);
    assert u == 0 - t * c;
  }

  lemma MaskIsZero<F(!new)>(r: Ring<F>, x: F, y: F)
    requires IsBinary(r) && IsBit(r, x) && IsBit(r, y)
    ensures r.add(x, y) == r.zero <==> BitNat(r, x) == BitNat(r, y)
  {
    BinaryTables(r);
  }

  lemma OneMinus()
    ensures FpAdd(1, FpNeg(0)) == 1 && FpAdd(1, FpNeg(1)) == 0
  {
    ToFpSmall(0);
    ToFpSmall(1);
    NegHom(0);
    SubHom(1, 1);
    SubHom(1, 0);
  }
}
