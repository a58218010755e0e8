/** The batch check of daBits: random selections of the bits, opened in both fields, must agree in parity. */
module Fdabit {
  import opened Arith
  import opened Rings
  import opened PrimeField
  import opened Bits
  import opened Homcom
  import opened QuickSilver

  datatype DabitP<F> = DabitP(bit: MacProver<F>, value: MacProver<Fp>)
  datatype DabitV<F> = DabitV(bit: MacVerifier<F>, value: MacVerifier<Fp>)

  const FDABIT_SECURITY_PARAMETER := 38

  /** `FE::NumberOfBitsInBitDecomposition`: the bit length of the modulus. */
  function FieldBits(): (n: nat)
    ensures P <= Pow2(n) && n > 0 && Pow2(n - 1) < P
  {
    assert Pow2(0) == 1;
    CeilLog2(P)
  }

  /** The number of masking bits for n daBits: the fewest whose sum can exceed every sum of the daBits. */
  function Gamma(n: nat): (g: nat)
    ensures g > 0 && Pow2(g - 1) <= n + 1 < Pow2(g)
  {
    FloorLog2(n + 1) + 1
  }

  predicate CheckParameters(n: nat, gamma: nat) {
    FloorLog2(n + 1) + gamma < FieldBits() - 1
  }

  /** What is refused: the product of the two powers of two, doubled, must stay below the modulus. */
  lemma ParametersExact(n: nat, gamma: nat)
    ensures CheckParameters(n, gamma) <==> Pow2(FloorLog2(n + 1) + gamma + 1) < P
  {
    hide CeilLog2, FloorLog2, Pow2, FieldBits;
    var l, m := FieldBits(), FloorLog2(n + 1) + gamma + 1;
    if m <= l - 1 {
      Pow2Monotone(m, l - 1);
    } else {
      Pow2Monotone(l, m);
    }
  }

  /** With the masking bits that the check itself takes. */
  lemma AdmittedExactly(n: nat)
    ensures CheckParameters(n, Gamma(n)) <==> Pow2(2 * Gamma(n)) < P
  {
    hide CeilLog2, FloorLog2, Pow2;
    ParametersExact(n, Gamma(n));
  }

  /** For every accepted n, even n selected ones and all masking bits set stay below the modulus. */
  lemma NoWraparound(n: nat)
    requires CheckParameters(n, Gamma(n))
    ensures n + Pow2(Gamma(n)) - 1 < P
  {
    hide CeilLog2, FloorLog2, Pow2, FieldBits;
    PowersApart(n, FloorLog2(n + 1), FieldBits());
  }

  lemma PowersApart(n: nat, f: nat, l: nat)
    requires n + 1 < Pow2(f + 1) && 2 * f + 2 < l
    ensures n + Pow2(f + 1) - 1 < Pow2(l - 1)
  {
    Pow2Monotone(f + 2, l - 1);
  }

  // ---- selections and masks on clear values ----

  function Selected(e: seq<bool>, vs: seq<nat>): nat
    requires |e| == |vs|
  {
    if e == [] then 0
    else var n := |e| - 1; Selected(e[..n], vs[..n]) + if e[n] then vs[n] else 0
  }

  /** The sum of 2^i over the positions that hold a one. */
  function MaskSum(cs: seq<bool>): nat {
    if cs == [] then 0
    else var n := |cs| - 1; MaskSum(cs[..n]) + if cs[n] then Pow2(n) else 0
  }

  lemma {:induction false} MaskSumBound(cs: seq<bool>)
    ensures MaskSum(cs) < Pow2(|cs|)
    ensures cs != [] ==> MaskSum(cs) % 2 == if cs[0] then 1 else 0
  {
    if cs != [] {
      var n := |cs| - 1;
      MaskSumBound(cs[..n]);
      if n == 0 {
        assert Pow2(0) == 1 && MaskSum(cs[..0]) == 0;
      }
    }
  }

  lemma {:induction false} SelectedBound(e: seq<bool>, vs: seq<nat>)
    requires |e| == |vs| && forall i :: 0 <= i < |vs| ==> vs[i] <= 1
    ensures Selected(e, vs) <= |e|
  {
    if e != [] {
      var n := |e| - 1;
      SelectedBound(e[..n], vs[..n]);
    }
  }

  /** How many selected positions hold different numbers. */
  function Mismatches(e: seq<bool>, us: seq<nat>, vs: seq<nat>): nat
    requires |e| == |us| == |vs|
  {
    if e == [] then 0
    else var n := |e| - 1; Mismatches(e[..n], us[..n], vs[..n]) + if e[n] && us[n] != vs[n] then 1 else 0
  }

  lemma {:induction false} ParityOfMismatches(e: seq<bool>, us: seq<nat>, vs: seq<nat>)
    requires |e| == |us| == |vs|
    requires forall i :: 0 <= i < |us| ==> us[i] <= 1 && vs[i] <= 1
    ensures (Selected(e, us) + Selected(e, vs)) % 2 == Mismatches(e, us, vs) % 2
  {
    if e != [] {
      var n := |e| - 1;
      ParityOfMismatches(e[..n], us[..n], vs[..n]);
    }
  }

  lemma {:induction false} NoMismatch(e: seq<bool>, us: seq<nat>)
    requires |e| == |us|
    ensures Mismatches(e, us, us) == 0
  {
    if e != [] {
      NoMismatch(e[..|e| - 1], us[..|e| - 1]);
    }
  }

  // ---- the same on authenticated values, as the parties accumulate them ----

  function Choice<F>(r: Ring<F>, b: bool): F {
    if b then r.one else r.zero
  }

  function SelectP<F>(r: Ring<F>, start: MacProver<F>, e: seq<bool>, ms: seq<MacProver<F>>): MacProver<F>
    requires |e| == |ms|
  {
    if e == [] then start
    else var n := |e| - 1; AddP(r, SelectP(r, start, e[..n], ms[..n]), MulCstP(r, Choice(r, e[n]), ms[n]))
  }

  function SelectV<F>(r: Ring<F>, start: MacVerifier<F>, e: seq<bool>, ks: seq<MacVerifier<F>>): MacVerifier<F>
    requires |e| == |ks|
  {
    if e == [] then start
    else var n := |e| - 1; AddV(r, SelectV(r, start, e[..n], ks[..n]), MulCstV(r, Choice(r, e[n]), ks[n]))
  }

  function WeighP(start: MacProver<Fp>, ms: seq<MacProver<Fp>>): MacProver<Fp> {
    if ms == [] then start
    else var n := |ms| - 1; AddP(FP, WeighP(start, ms[..n]), MulCstP(FP, ToFp(Pow2(n)), ms[n]))
  }

  function WeighV(start: MacVerifier<Fp>, ks: seq<MacVerifier<Fp>>): MacVerifier<Fp> {
    if ks == [] then start
    else var n := |ks| - 1; AddV(FP, WeighV(start, ks[..n]), MulCstV(FP, ToFp(Pow2(n)), ks[n]))
  }

  lemma {:induction false} SelectAuth<F(!new)>(r: Ring<F>, delta: F, p: MacProver<F>, v: MacVerifier<F>, e: seq<bool>,
                                               ms: seq<MacProver<F>>, ks: seq<MacVerifier<F>>)
    requires IsRing(r) && Auth(r, delta, p, v) && |e| == |ms| && AuthAll(r, delta, ms, ks)
    ensures Auth(r, delta, SelectP(r, p, e, ms), SelectV(r, v, e, ks))
  {
    hide Auth, AddP, AddV, MulCstP, MulCstV;
    if e != [] {
      var n := |e| - 1;
      SelectAuth(r, delta, p, v, e[..n], ms[..n], ks[..n]);
      MulCstAuth(r, delta, Choice(r, e[n]), ms[n], ks[n]);
      AddAuth(r, delta, SelectP(r, p, e[..n], ms[..n]), MulCstP(r, Choice(r, e[n]), ms[n]),
              SelectV(r, v, e[..n], ks[..n]), MulCstV(r, Choice(r, e[n]), ks[n]));
    }
  }

  lemma {:induction false} WeighAuth(delta: Fp, p: MacProver<Fp>, v: MacVerifier<Fp>, ms: seq<MacProver<Fp>>,
                                     ks: seq<MacVerifier<Fp>>)
    requires Auth(FP, delta, p, v) && AuthAll(FP, delta, ms, ks)
    ensures Auth(FP, delta, WeighP(p, ms), WeighV(v, ks))
  {
    hide Auth, AddP, AddV, MulCstP, MulCstV;
    FpIsRing();
    if ms != [] {
      var n := |ms| - 1;
      WeighAuth(delta, p, v, ms[..n], ks[..n]);
      MulCstAuth(FP, delta, ToFp(Pow2(n)), ms[n], ks[n]);
      AddAuth(FP, delta, WeighP(p, ms[..n]), MulCstP(FP, ToFp(Pow2(n)), ms[n]),
              WeighV(v, ks[..n]), MulCstV(FP, ToFp(Pow2(n)), ks[n]));
    }
  }

  lemma ChoiceProduct<F(!new)>(r: Ring<F>, b: bool, x: F)
    requires IsBinary(r) && IsBit(r, x)
    ensures IsBit(r, r.mul(Choice(r, b), x)) && BitNat(r, r.mul(Choice(r, b), x)) == if b then BitNat(r, x) else 0
  {
    BinaryTables(r);
  }

  /** In the binary field a selection has the parity of the selected bits. */
  lemma {:induction false} SelectBinary<F(!new)>(r: Ring<F>, p: MacProver<F>, e: seq<bool>, ms: seq<MacProver<F>>,
                                                 vs: seq<nat>)
    requires IsBinary(r) && IsBit(r, p.x) && |e| == |ms| == |vs|
    requires forall i :: 0 <= i < |ms| ==> IsBit(r, ms[i].x) && vs[i] == BitNat(r, ms[i].x)
    ensures IsBit(r, SelectP(r, p, e, ms).x)
    ensures BitNat(r, SelectP(r, p, e, ms).x) == (BitNat(r, p.x) + Selected(e, vs)) % 2
  {
    hide IsBinary, BitNat;
    if e != [] {
      var n := |e| - 1;
      ChoiceProduct(r, e[n], ms[n].x);
      SelectBinary(r, p, e[..n], ms[..n], vs[..n]);
      AddBits(r, SelectP(r, p, e[..n], ms[..n]).x, r.mul(Choice(r, e[n]), ms[n].x));
    }
  }

  /** In the prime field a selection is the sum of the selected numbers. */
  lemma {:induction false} SelectField(p: MacProver<Fp>, x: nat, e: seq<bool>, ms: seq<MacProver<Fp>>, vs: seq<nat>)
    requires p.x == ToFp(x) && |e| == |ms| == |vs|
    requires forall i :: 0 <= i < |ms| ==> ms[i].x == ToFp(vs[i])
    ensures SelectP(FP, p, e, ms).x == ToFp(x + Selected(e, vs))
  {
    if e != [] {
      var n := |e| - 1;
      SelectField(p, x, e[..n], ms[..n], vs[..n]);
      var b := if e[n] then 1 else 0;
      ToFpSmall(b);
      MulHom(b, vs[n]);
      AddHom(x + Selected(e[..n], vs[..n]), b * vs[n]);
    }
  }

  lemma {:induction false} WeighField(p: MacProver<Fp>, x: nat, ms: seq<MacProver<Fp>>, cs: seq<bool>)
    requires p.x == ToFp(x) && |ms| == |cs|
    requires forall i :: 0 <= i < |ms| ==> ms[i].x == if cs[i] then 1 else 0
    ensures WeighP(p, ms).x == ToFp(x + MaskSum(cs))
  {
    hide Pow2;
    if ms != [] {
      var n := |ms| - 1;
      WeighField(p, x, ms[..n], cs[..n]);
      var b := if cs[n] then 1 else 0;
      ToFpSmall(b);
      MulHom(Pow2(n), b);
      AddHom(x + MaskSum(cs[..n]), Pow2(n) * b);
    }
  }

  // ---- one row of the check ----

  function DabitBitsP<F>(ds: seq<DabitP<F>>): seq<MacProver<F>> {
    seq(|ds|, i requires 0 <= i < |ds| => ds[i].bit)
  }

  function DabitValuesP<F>(ds: seq<DabitP<F>>): seq<MacProver<Fp>> {
    seq(|ds|, i requires 0 <= i < |ds| => ds[i].value)
  }

  function DabitBitsV<F>(ds: seq<DabitV<F>>): seq<MacVerifier<F>> {
    seq(|ds|, i requires 0 <= i < |ds| => ds[i].bit)
  }

  function DabitValuesV<F>(ds: seq<DabitV<F>>): seq<MacVerifier<Fp>> {
    seq(|ds|, i requires 0 <= i < |ds| => ds[i].value)
  }

  ghost predicate AuthDabits<F>(r: Ring<F>, d2: F, dp: Fp, ds: seq<DabitP<F>>, ks: seq<DabitV<F>>) {
    && |ds| == |ks|
    && forall i :: 0 <= i < |ds| ==> Auth(r, d2, ds[i].bit, ks[i].bit) && Auth(FP, dp, ds[i].value, ks[i].value)
  }

  /** Both components are bits, not necessarily the same one. */
  ghost predicate BitValued<F>(r: Ring<F>, ds: seq<DabitP<F>>) {
    forall i :: 0 <= i < |ds| ==> IsBit(r, ds[i].bit.x) && ds[i].value.x <= 1
  }

  ghost predicate Consistent<F>(r: Ring<F>, ds: seq<DabitP<F>>) {
    forall i :: 0 <= i < |ds| ==> IsBit(r, ds[i].bit.x) && ds[i].value.x == BitNat(r, ds[i].bit.x)
  }

  ghost function BitNats<F>(r: Ring<F>, ds: seq<DabitP<F>>): (vs: seq<nat>)
    ensures |vs| == |ds|
  {
    seq(|ds|, i requires 0 <= i < |ds| => BitNat(r, ds[i].bit.x))
  }

  ghost function ValueNats<F>(ds: seq<DabitP<F>>): (vs: seq<nat>)
    ensures |vs| == |ds|
  {
    seq(|ds|, i requires 0 <= i < |ds| => ds[i].value.x as int)
  }

  /** The masking bits of one row, in the prime field, and the first of them in the binary field. */
  ghost predicate MasksHold<F>(r: Ring<F>, cs: seq<bool>, ms: seq<MacProver<Fp>>, c1: MacProver<F>) {
    && cs != [] && |ms| == |cs| && c1.x == Choice(r, cs[0])
    && forall i :: 0 <= i < |cs| ==> ms[i].x == if cs[i] then 1 else 0
  }

  function RowBit<F>(r: Ring<F>, c1: MacProver<F>, e: seq<bool>, ds: seq<DabitP<F>>): MacProver<F>
    requires |e| == |ds|
  {
    SelectP(r, c1, e, DabitBitsP(ds))
  }

  function RowTau<F>(e: seq<bool>, ds: seq<DabitP<F>>, ms: seq<MacProver<Fp>>): MacProver<Fp>
    requires |e| == |ds|
  {
    WeighP(SelectP(FP, MacProver(0, 0), e, DabitValuesP(ds)), ms)
  }

  /** The parity comparison of one row, on the opened values. */
  predicate ParityTest<F(==)>(r: Ring<F>, bit: F, tau: Fp) {
    (bit == r.one) == (tau % 2 == 1)
  }

  /** For bit-valued daBits a row passes exactly when it selects an even number of mismatched ones. */
  lemma ParityExact<F(!new)>(r: Ring<F>, e: seq<bool>, ds: seq<DabitP<F>>, cs: seq<bool>, ms: seq<MacProver<Fp>>,
                             c1: MacProver<F>)
    requires IsBinary(r) && |e| == |ds| && BitValued(r, ds)
    requires CheckParameters(|ds|, |cs|) && |cs| == Gamma(|ds|) && MasksHold(r, cs, ms, c1)
    ensures ParityTest(r, RowBit(r, c1, e, ds).x, RowTau(e, ds, ms).x)
       <==> Mismatches(e, BitNats(r, ds), ValueNats(ds)) % 2 == 0
  {
    hide RowBit, RowTau, IsBinary, Gamma, CheckParameters, Selected, Mismatches, BitNat;
    var us, vs := BitNats(r, ds), ValueNats(ds);
    RowBitParity(r, e, ds, c1);
    RowTauParity(r, e, ds, cs, ms, c1);
    ParityOfMismatches(e, us, vs);
    BitChoice(r, cs[0]);
    BitIsOne(r, RowBit(r, c1, e, ds).x);
  }

  lemma RowBitParity<F(!new)>(r: Ring<F>, e: seq<bool>, ds: seq<DabitP<F>>, c1: MacProver<F>)
    requires IsBinary(r) && |e| == |ds| && BitValued(r, ds) && IsBit(r, c1.x)
    ensures BitNat(r, RowBit(r, c1, e, ds).x) == (BitNat(r, c1.x) + Selected(e, BitNats(r, ds))) % 2
  {
    hide SelectP, IsBinary, BitNat, Selected;
    SelectBinary(r, c1, e, DabitBitsP(ds), BitNats(r, ds));
  }

  /** The opened sum is an integer below the modulus, so its low bit is its parity. */
  lemma RowTauParity<F(!new)>(r: Ring<F>, e: seq<bool>, ds: seq<DabitP<F>>, cs: seq<bool>, ms: seq<MacProver<Fp>>,
                              c1: MacProver<F>)
    requires |e| == |ds| && BitValued(r, ds)
    requires CheckParameters(|ds|, |cs|) && |cs| == Gamma(|ds|) && MasksHold(r, cs, ms, c1)
    ensures RowTau(e, ds, ms).x % 2 == (Selected(e, ValueNats(ds)) + if cs[0] then 1 else 0) % 2
  {
    hide RowTau, Gamma, CheckParameters, Selected, Pow2, MaskSum;
    RowTauValue(r, e, ds, cs, ms, c1);
    SelectedBound(e, ValueNats(ds));
    MaskSumBound(cs);
    NoWraparound(|ds|);
    ToFpSmall(Selected(e, ValueNats(ds)) + MaskSum(cs));
  }

  lemma RowTauValue<F(!new)>(r: Ring<F>, e: seq<bool>, ds: seq<DabitP<F>>, cs: seq<bool>, ms: seq<MacProver<Fp>>,
                             c1: MacProver<F>)
    requires |e| == |ds| && MasksHold(r, cs, ms, c1)
    ensures RowTau(e, ds, ms).x == ToFp(Selected(e, ValueNats(ds)) + MaskSum(cs))
  {
    hide SelectP, WeighP, Selected, MaskSum;
    var vs := ValueNats(ds);
    ToFpSmall(0);
    forall i | 0 <= i < |ds| ensures DabitValuesP(ds)[i].x == ToFp(vs[i]) {
      Canonical(ds[i].value.x);
    }
    SelectField(MacProver(0, 0), 0, e, DabitValuesP(ds), vs);
    WeighField(SelectP(FP, MacProver(0, 0), e, DabitValuesP(ds)), Selected(e, vs), ms, cs);
  }

  lemma BitChoice<F(!new)>(r: Ring<F>, b: bool)
    requires IsBinary(r)
    ensures IsBit(r, Choice(r, b)) && BitNat(r, Choice(r, b)) == if b then 1 else 0
  {
  }

  lemma BitIsOne<F(!new)>(r: Ring<F>, x: F)
    ensures BitNat(r, x) == 1 <==> x == r.one
  {
  }

  /** So consistent daBits pass for every selection. */
  lemma ConsistentPass<F(!new)>(r: Ring<F>, e: seq<bool>, ds: seq<DabitP<F>>, cs: seq<bool>, ms: seq<MacProver<Fp>>,
                                c1: MacProver<F>)
    requires IsBinary(r) && |e| == |ds| && Consistent(r, ds)
    requires CheckParameters(|ds|, |cs|) && |cs| == Gamma(|ds|) && MasksHold(r, cs, ms, c1)
    ensures ParityTest(r, RowBit(r, c1, e, ds).x, RowTau(e, ds, ms).x)
  {
    hide RowBit, RowTau, IsBinary, Gamma, CheckParameters, Mismatches;
    assert BitNats(r, ds) == ValueNats(ds);
    NoMismatch(e, BitNats(r, ds));
    ParityExact(r, e, ds, cs, ms, c1);
  }
}
