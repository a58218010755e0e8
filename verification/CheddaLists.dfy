/** The lists of checks in a verification of conversions, for whatever corrections were sent, and what they mean. */
module CheddaLists {
  import opened Arith
  import opened Rings
  import opened PrimeField
  import opened Bits
  import opened Polynomials
  import opened Homcom
  import opened EdabitConversion
  import opened EdabitConversionRun
  import opened HdQuicksilver
  import opened HdValues
  import opened CheddaPrg
  import opened CheddaChecks
  import opened CheddaConv

  // ---- one bit in the binary field ----

  /** daBit + bit + correction. */
  function CorrectionPoly<F>(r: Ring<F>, a: seq<F>, m: MacProver<F>, c: bool): seq<F> {
    var sum := HdAdd(r, a, FromMac(r, m));
    if sum == [] then [] else HdAddCst(r, sum, if c then r.one else r.zero)
  }

  function CorrectionKey<F>(r: Ring<F>, delta: F, b: HdKey<F>, l: MacVerifier<F>, c: bool): HdKey<F> {
    KeyAddCst(r, delta, KeyAdd(r, delta, b, KeyFromMac(r, l)), if c then r.one else r.zero)
  }

  lemma CorrectionMean<F(!new)>(r: Ring<F>, delta: F, a: seq<F>, b: HdKey<F>, x: F, d: nat, m: MacProver<F>,
                                l: MacVerifier<F>, c: bool)
    requires IsRing(r) && Hd(r, delta, a, b, x, d) && Auth(r, delta, m, l)
    ensures Hd(r, delta, CorrectionPoly(r, a, m, c), CorrectionKey(r, delta, b, l, c),
               CheddaConv.Difference(r, x, m.x, c), d)
  {
    hide Eval;
    var y := if c then r.one else r.zero;
    FromMacAuth(r, delta, m, l);
    assert d >= 1;
    hide IsRing, HdAdd, KeyAdd, HdAddCst, KeyAddCst, Auth;
    AddHd(r, delta, a, b, x, d, FromMac(r, m), KeyFromMac(r, l), m.x, 1);
    AddCstHd(r, delta, HdAdd(r, a, FromMac(r, m)), KeyAdd(r, delta, b, KeyFromMac(r, l)), r.add(x, m.x), d, y);
  }

  // ---- one daBit in the prime field ----

  function FlipP(c: bool, a: seq<Fp>): seq<Fp> {
    if c && a != [] then ScaleSeq(FP, FpNeg(1), HdSubCst(FP, a, 1)) else a
  }

  function FlipV(delta: Fp, c: bool, b: HdKey<Fp>): HdKey<Fp> {
    if c then KeyScale(FP, FpNeg(1), KeySubCst(FP, delta, b, 1)) else b
  }

  lemma SubtractHd(delta: Fp, s: seq<Fp>, l: HdKey<Fp>, y: Fp, e: nat, a: seq<Fp>, b: HdKey<Fp>, x: Fp, d: nat, c: bool,
                   pow: Fp)
    requires Hd(FP, delta, s, l, y, e) && Hd(FP, delta, a, b, x, d) && e <= d
    ensures |a| >= 2 && b.degree >= 1
    ensures Hd(FP, delta, HdSub(FP, s, ScaleSeq(FP, pow, FlipP(c, a))),
               KeySub(FP, delta, l, KeyScale(FP, pow, FlipV(delta, c, b))), FP.Sub(y, FpMul(pow, Flipped(c, x))), d)
  {
    FpIsRing();
    assert |a| >= 2 && b.degree >= 1;
    hide Hd, IsRing, HdSub, KeySub, HdSubCst, KeySubCst, ScaleSeq, KeyScale, Eval;
    if c {
      SubCstHd(FP, delta, a, b, x, d, 1);
      ScaleHd(FP, delta, HdSubCst(FP, a, 1), KeySubCst(FP, delta, b, 1), FP.Sub(x, 1), d, FpNeg(1));
    }
    ScaleHd(FP, delta, FlipP(c, a), FlipV(delta, c, b), Flipped(c, x), d, pow);
    SubHd(FP, delta, s, l, y, e, ScaleSeq(FP, pow, FlipP(c, a)), KeyScale(FP, pow, FlipV(delta, c, b)),
          FpMul(pow, Flipped(c, x)), d);
  }

  function DegreeFor(k: nat, d: nat): nat {
    if k == 0 then 1 else d
  }

  lemma RemainderGrows(value: Fp, ds: seq<Fp>, cs: seq<bool>, i: nat)
    requires i < |ds| == |cs|
    ensures Remainder(value, ds[..i + 1], cs[..i + 1])
         == FP.Sub(Remainder(value, ds[..i], cs[..i]), FpMul(ToFp(Pow2(i)), Flipped(cs[i], ds[i])))
  {
    assert ds[..i + 1][..i] == ds[..i] && cs[..i + 1][..i] == cs[..i];
  }

  lemma NumbersSame<F(!new)>(pred: Pred, r: Ring<F>, d2: F, dp: Fp, ps: seq<HdDabitP<F>>, vs: seq<HdDabitV<F>>,
                              xs: seq<F>)
    requires HdDabitsOk(pred, r, d2, dp, ps, vs, xs)
    ensures SameBits(r, xs, BitNumbers(r, xs))
  {
    hide Hd, IsBit, BitNat;
    forall i | 0 <= i < |xs| ensures IsBit(r, xs[i]) {
      assert HdDabitOk(pred, r, d2, dp, ps[i], vs[i], xs[i]);
    }
  }

  // ---- the lists of one tuple ----

  /** The checks of a tuple's bits. */
  function TuplePolys<F>(r: Ring<F>, bits: seq<MacProver<F>>, ps: seq<HdDabitP<F>>, cs: seq<bool>): (rs: seq<seq<F>>)
    ensures |rs| == |ps|
  {
    seq(|ps|, i requires 0 <= i < |ps| =>
      if i < |bits| && i < |cs| then CorrectionPoly(r, ps[i].c2, bits[i], cs[i]) else [])
  }

  function TupleKeys<F>(r: Ring<F>, delta: F, keys: seq<MacVerifier<F>>, vs: seq<HdDabitV<F>>,
                        cs: seq<bool>): (ks: seq<HdKey<F>>)
    ensures |ks| == |vs|
  {
    seq(|vs|, i requires 0 <= i < |vs| =>
      if i < |keys| && i < |cs| then CorrectionKey(r, delta, vs[i].k2, keys[i], cs[i]) else HdKey(r.zero, 0))
  }

  /** The check of its value: the value with all corrected daBits taken off. */
  function RemainderPoly<F>(value: MacProver<Fp>, ps: seq<HdDabitP<F>>, cs: seq<bool>): seq<Fp> {
    if ps == [] || |cs| != |ps| then FromMac(FP, value)
    else
      var n := |ps| - 1;
      HdSub(FP, RemainderPoly(value, ps[..n], cs[..n]), ScaleSeq(FP, ToFp(Pow2(n)), FlipP(cs[n], ps[n].cp)))
  }

  function RemainderKey<F>(delta: Fp, value: MacVerifier<Fp>, vs: seq<HdDabitV<F>>, cs: seq<bool>): HdKey<Fp> {
    if vs == [] || |cs| != |vs| then KeyFromMac(FP, value)
    else
      var n := |vs| - 1;
      KeySub(FP, delta, RemainderKey(delta, value, vs[..n], cs[..n]),
             KeyScale(FP, ToFp(Pow2(n)), FlipV(delta, cs[n], vs[n].kp)))
  }

  /** All corrections of a tuple's bits are what they should be. */
  ghost predicate TupleRight<F>(r: Ring<F>, xs: seq<F>, bits: seq<MacProver<F>>, cs: seq<bool>) {
    RightCorrections(xs, Values(bits), cs)
  }

  lemma TupleMean<F(!new)>(pred: Pred, r: Ring<F>, d2: F, dp: Fp, ps: seq<HdDabitP<F>>, vs: seq<HdDabitV<F>>,
                           xs: seq<F>, bits: seq<MacProver<F>>, keys: seq<MacVerifier<F>>, cs: seq<bool>)
    requires IsBinary(r) && HdDabitsOk(pred, r, d2, dp, ps, vs, xs) && AuthAll(r, d2, bits, keys)
    requires |bits| == |ps| == |cs| && AreBits(r, Values(bits))
    ensures Mean(r, d2, TuplePolys(r, bits, ps, cs), TupleKeys(r, d2, keys, vs, cs), TupleRight(r, xs, bits, cs))
  {
    var polys, tks := TuplePolys(r, bits, ps, cs), TupleKeys(r, d2, keys, vs, cs);
    hide Eval, IsRing, Auth, CorrectionPoly, CorrectionKey, CheddaConv.Difference, IsBit;
    forall i | 0 <= i < |ps|
      ensures HdAuth(r, d2, polys[i], tks[i]) && polys[i] != []
      ensures Value(polys[i]) == r.zero <==> (cs[i] <==> xs[i] != Values(bits)[i])
    {
      assert HdDabitOk(pred, r, d2, dp, ps[i], vs[i], xs[i]);
      assert Values(bits)[i] == bits[i].x && IsBit(r, Values(bits)[i]);
      CorrectionMean(r, d2, ps[i].c2, vs[i].k2, xs[i], pred.D2(), bits[i], keys[i], cs[i]);
      DifferenceExact(r, xs[i], bits[i].x, cs[i]);
    }
    hide IsBinary, HdAuth;
    assert forall i :: 0 <= i < |ps| ==> ClearValues(polys)[i] == Value(polys[i]);
  }

  lemma {:induction false} RemainderMean<F(!new)>(pred: Pred, r: Ring<F>, d2: F, dp: Fp, ps: seq<HdDabitP<F>>,
                                                  vs: seq<HdDabitV<F>>, xs: seq<F>, value: MacProver<Fp>,
                                                  key: MacVerifier<Fp>, cs: seq<bool>)
    requires HdDabitsOk(pred, r, d2, dp, ps, vs, xs) && Auth(FP, dp, value, key) && |cs| == |ps|
    ensures Hd(FP, dp, RemainderPoly(value, ps, cs), RemainderKey(dp, key, vs, cs),
               Remainder(value.x, BitNumbers(r, xs), cs), DegreeFor(|ps|, pred.DP()))
  {
    FpIsRing();
    hide Eval, IsRing, HdSub, KeySub, ScaleSeq, KeyScale, FlipP, FlipV, Flipped, ToFp, BitNat, Pow2;
    if ps == [] {
      FromMacAuth(FP, dp, value, key);
    } else {
      var n := |ps| - 1;
      hide Hd;
      RemainderMean(pred, r, d2, dp, ps[..n], vs[..n], xs[..n], value, key, cs[..n]);
      assert HdDabitOk(pred, r, d2, dp, ps[n], vs[n], xs[n]);
      assert BitNumbers(r, xs)[..n] == BitNumbers(r, xs[..n]);
      SubtractHd(dp, RemainderPoly(value, ps[..n], cs[..n]), RemainderKey(dp, key, vs[..n], cs[..n]),
                 Remainder(value.x, BitNumbers(r, xs[..n]), cs[..n]), DegreeFor(n, pred.DP()), ps[n].cp, vs[n].kp,
                 BitNat(r, xs[n]), pred.DP(), cs[n], ToFp(Pow2(n)));
    }
  }

  // ---- the lists of a batch ----

  /** The corrections sent for a batch: k for each tuple. */
  ghost predicate Corrected(n: nat, k: nat, css: seq<seq<bool>>) {
    |css| == n && forall t :: 0 <= t < n ==> |css[t]| == k
  }

  /** The checks in the binary field for the first m tuples. */
  function BatchPolys<F>(r: Ring<F>, es: seq<EdabitP<F>>, k: nat, ps: seq<HdDabitP<F>>, css: seq<seq<bool>>,
                         m: nat): seq<seq<F>>
    requires m <= |es| && m <= |css|
  {
    if m == 0 then []
    else BatchPolys(r, es, k, ps, css, m - 1) + TuplePolys(r, es[m - 1].bits, Part(ps, Times(m - 1, k), k), css[m - 1])
  }

  function BatchKeys<F>(r: Ring<F>, delta: F, fs: seq<EdabitV<F>>, k: nat, vs: seq<HdDabitV<F>>, css: seq<seq<bool>>,
                        m: nat): seq<HdKey<F>>
    requires m <= |fs| && m <= |css|
  {
    if m == 0 then []
    else
      BatchKeys(r, delta, fs, k, vs, css, m - 1)
      + TupleKeys(r, delta, fs[m - 1].bits, Part(vs, Times(m - 1, k), k), css[m - 1])
  }

  /** The checks in the prime field. */
  function ValuePolys<F>(es: seq<EdabitP<F>>, k: nat, ps: seq<HdDabitP<F>>, css: seq<seq<bool>>,
                         m: nat): (rs: seq<seq<Fp>>)
    requires m <= |es| && m <= |css|
    ensures |rs| == m
  {
    if m == 0 then []
    else
      ValuePolys(es, k, ps, css, m - 1) + [RemainderPoly(es[m - 1].value, Part(ps, Times(m - 1, k), k), css[m - 1])]
  }

  function ValueKeys<F>(delta: Fp, fs: seq<EdabitV<F>>, k: nat, vs: seq<HdDabitV<F>>, css: seq<seq<bool>>,
                        m: nat): (ks: seq<HdKey<Fp>>)
    requires m <= |fs| && m <= |css|
    ensures |ks| == m
  {
    if m == 0 then []
    else
      ValueKeys(delta, fs, k, vs, css, m - 1)
      + [RemainderKey(delta, fs[m - 1].value, Part(vs, Times(m - 1, k), k), css[m - 1])]
  }

  /** All corrections of the first m tuples are right, for daBits with the bits xs. */
  ghost predicate AllRight<F>(r: Ring<F>, es: seq<EdabitP<F>>, k: nat, xs: seq<F>, css: seq<seq<bool>>, m: nat)
    requires m <= |es| && m <= |css|
  {
    forall t :: 0 <= t < m ==> TupleRight(r, Part(xs, Times(t, k), k), es[t].bits, css[t])
  }

  ghost predicate AllConsistent<F>(r: Ring<F>, es: seq<EdabitP<F>>) {
    forall t :: 0 <= t < |es| ==> TupleDiscrepancy(r, es[t]) == 0
  }

  lemma SliceOk<F(!new)>(pred: Pred, r: Ring<F>, d2: F, dp: Fp, ps: seq<HdDabitP<F>>, vs: seq<HdDabitV<F>>, xs: seq<F>,
                         j: nat, k: nat)
    requires HdDabitsOk(pred, r, d2, dp, ps, vs, xs) && j + k <= |ps|
    ensures |ps| == |vs| == |xs| && HdDabitsOk(pred, r, d2, dp, ps[j..j + k], vs[j..j + k], xs[j..j + k])
  {
    hide HdDabitOk;
  }

  lemma DabitAt<F(!new)>(pred: Pred, r: Ring<F>, d2: F, dp: Fp, ps: seq<HdDabitP<F>>, vs: seq<HdDabitV<F>>, xs: seq<F>,
                         i: nat)
    requires HdDabitsOk(pred, r, d2, dp, ps, vs, xs) && i < |ps|
    ensures |ps| == |vs| == |xs| && HdDabitOk(pred, r, d2, dp, ps[i], vs[i], xs[i])
  {
  }

  lemma TupleAt<F(!new)>(r: Ring<F>, d2: F, dp: Fp, es: seq<EdabitP<F>>, fs: seq<EdabitV<F>>, k: nat, t: nat)
    requires AuthEdabits(r, d2, dp, es, fs, k) && t < |es|
    ensures |es| == |fs| && AuthEdabit(r, d2, dp, es[t], fs[t]) && |es[t].bits| == k && AreBits(r, Values(es[t].bits))
  {
  }

  lemma NothingTaken(value: Fp)
    ensures Remainder(value, [], []) == value
  {
  }

  lemma PartOk<F(!new)>(pred: Pred, r: Ring<F>, d2: F, dp: Fp, ps: seq<HdDabitP<F>>, vs: seq<HdDabitV<F>>,
                        xs: seq<F>, n: nat, k: nat, t: nat)
    requires HdDabitsOk(pred, r, d2, dp, ps, vs, xs) && |ps| == Times(n, k) && t < n
    ensures |Part(ps, Times(t, k), k)| == k
    ensures HdDabitsOk(pred, r, d2, dp, Part(ps, Times(t, k), k), Part(vs, Times(t, k), k), Part(xs, Times(t, k), k))
  {
    hide HdDabitOk;
    TimesMonotone(t + 1, n, k);
    NextTimes(t, k);
    SliceOk(pred, r, d2, dp, ps, vs, xs, Times(t, k), k);
  }

  /** For any corrections: the binary checks mean that all corrections are right. */
  lemma {:induction false} BatchMean<F(!new)>(pred: Pred, r: Ring<F>, d2: F, dp: Fp, es: seq<EdabitP<F>>,
                                              fs: seq<EdabitV<F>>, k: nat, ps: seq<HdDabitP<F>>, vs: seq<HdDabitV<F>>,
                                              xs: seq<F>, css: seq<seq<bool>>, m: nat)
    requires IsBinary(r) && AuthEdabits(r, d2, dp, es, fs, k) && HdDabitsOk(pred, r, d2, dp, ps, vs, xs)
    requires |ps| == Times(|es|, k) && Corrected(|es|, k, css) && m <= |es|
    ensures |fs| == |es|
    ensures Mean(r, d2, BatchPolys(r, es, k, ps, css, m), BatchKeys(r, d2, fs, k, vs, css, m),
                 AllRight(r, es, k, xs, css, m))
  {
    hide IsBinary, HdDabitsOk, AuthEdabit, TuplePolys, TupleKeys, TupleRight, Mean, Part, Times, AreBits;
    if m == 0 {
      MeanEmpty<F>(r, d2, [], [], AllRight(r, es, k, xs, css, 0));
    } else {
      BatchMean(pred, r, d2, dp, es, fs, k, ps, vs, xs, css, m - 1);
      TupleAt(r, d2, dp, es, fs, k, m - 1);
      PartOk(pred, r, d2, dp, ps, vs, xs, |es|, k, m - 1);
      var p, v, x := Part(ps, Times(m - 1, k), k), Part(vs, Times(m - 1, k), k), Part(xs, Times(m - 1, k), k);
      EdabitParts(r, d2, dp, es[m - 1], fs[m - 1]);
      TupleMean(pred, r, d2, dp, p, v, x, es[m - 1].bits, fs[m - 1].bits, css[m - 1]);
      MeanAppend(r, d2, BatchPolys(r, es, k, ps, css, m - 1), BatchKeys(r, d2, fs, k, vs, css, m - 1),
                 AllRight(r, es, k, xs, css, m - 1), TuplePolys(r, es[m - 1].bits, p, css[m - 1]),
                 TupleKeys(r, d2, fs[m - 1].bits, v, css[m - 1]), TupleRight(r, x, es[m - 1].bits, css[m - 1]));
    }
  }

  lemma EdabitParts<F>(r: Ring<F>, d2: F, dp: Fp, e: EdabitP<F>, f: EdabitV<F>)
    requires AuthEdabit(r, d2, dp, e, f)
    ensures AuthAll(r, d2, e.bits, f.bits) && Auth(FP, dp, e.value, f.value)
  {
  }

  /** What the checks in the prime field mean, for any corrections. */
  ghost predicate RemaindersZero<F>(r: Ring<F>, es: seq<EdabitP<F>>, k: nat, xs: seq<F>, css: seq<seq<bool>>, m: nat)
    requires m <= |es| && m <= |css|
  {
    forall t :: 0 <= t < m ==>
      |css[t]| == |Part(xs, Times(t, k), k)|
      && Remainder(es[t].value.x, BitNumbers(r, Part(xs, Times(t, k), k)), css[t]) == 0
  }

  lemma {:induction false} ValueMean<F(!new)>(pred: Pred, r: Ring<F>, d2: F, dp: Fp, es: seq<EdabitP<F>>,
                                              fs: seq<EdabitV<F>>, k: nat, ps: seq<HdDabitP<F>>, vs: seq<HdDabitV<F>>,
                                              xs: seq<F>, css: seq<seq<bool>>, m: nat)
    requires AuthEdabits(r, d2, dp, es, fs, k) && HdDabitsOk(pred, r, d2, dp, ps, vs, xs)
    requires |ps| == Times(|es|, k) && Corrected(|es|, k, css) && m <= |es|
    ensures |fs| == |es|
    ensures Mean(FP, dp, ValuePolys(es, k, ps, css, m), ValueKeys(dp, fs, k, vs, css, m),
                 RemaindersZero(r, es, k, xs, css, m))
  {
    hide AuthEdabit, RemainderPoly, RemainderKey, Remainder, Mean, Part, Times, AreBits, BitNat, HdDabitsOk;
    if m == 0 {
      MeanEmpty<Fp>(FP, dp, [], [], RemaindersZero(r, es, k, xs, css, 0));
    } else {
      ValueMean(pred, r, d2, dp, es, fs, k, ps, vs, xs, css, m - 1);
      TupleAt(r, d2, dp, es, fs, k, m - 1);
      PartOk(pred, r, d2, dp, ps, vs, xs, |es|, k, m - 1);
      var p, v, x := Part(ps, Times(m - 1, k), k), Part(vs, Times(m - 1, k), k), Part(xs, Times(m - 1, k), k);
      EdabitParts(r, d2, dp, es[m - 1], fs[m - 1]);
      PartLengths(pred, r, d2, dp, p, v, x);
      RemainderMean(pred, r, d2, dp, p, v, x, es[m - 1].value, fs[m - 1].value, css[m - 1]);
      var c, l := RemainderPoly(es[m - 1].value, p, css[m - 1]), RemainderKey(dp, fs[m - 1].value, v, css[m - 1]);
      hide Eval;
      MeanOne(FP, dp, c, l);
      MeanAppend(FP, dp, ValuePolys(es, k, ps, css, m - 1), ValueKeys(dp, fs, k, vs, css, m - 1),
                 RemaindersZero(r, es, k, xs, css, m - 1), [c], [l], Value(c) == 0);
    }
  }

  lemma PartLengths<F>(pred: Pred, r: Ring<F>, d2: F, dp: Fp, ps: seq<HdDabitP<F>>, vs: seq<HdDabitV<F>>, xs: seq<F>)
    requires HdDabitsOk(pred, r, d2, dp, ps, vs, xs)
    ensures |ps| == |vs| == |xs|
  {
  }

  /** With right corrections, the checks in the prime field mean that every tuple is consistent. */
  lemma RightRemainders<F(!new)>(pred: Pred, r: Ring<F>, d2: F, dp: Fp, es: seq<EdabitP<F>>, fs: seq<EdabitV<F>>,
                                 k: nat, ps: seq<HdDabitP<F>>, vs: seq<HdDabitV<F>>, xs: seq<F>, css: seq<seq<bool>>)
    requires IsBinary(r) && AuthEdabits(r, d2, dp, es, fs, k) && HdDabitsOk(pred, r, d2, dp, ps, vs, xs)
    requires |ps| == Times(|es|, k) && Corrected(|es|, k, css) && AllRight(r, es, k, xs, css, |es|)
    ensures RemaindersZero(r, es, k, xs, css, |es|) <==> AllConsistent(r, es)
  {
    assert r.zero != r.one;
    hide IsBinary, AuthEdabit, Remainder, Part, Times, BitNat, HdDabitsOk, TupleDiscrepancy, SameBits, BitNumbers;
    forall t | 0 <= t < |es|
      ensures |css[t]| == |Part(xs, Times(t, k), k)|
      ensures Remainder(es[t].value.x, BitNumbers(r, Part(xs, Times(t, k), k)), css[t]) == TupleDiscrepancy(r, es[t])
    {
      TupleAt(r, d2, dp, es, fs, k, t);
      PartOk(pred, r, d2, dp, ps, vs, xs, |es|, k, t);
      var p, v, x := Part(ps, Times(t, k), k), Part(vs, Times(t, k), k), Part(xs, Times(t, k), k);
      PartLengths(pred, r, d2, dp, p, v, x);
      NumbersSame(pred, r, d2, dp, p, v, x);
      assert TupleRight(r, x, es[t].bits, css[t]);
      RemainderIs(r, es[t].value.x, x, BitNumbers(r, x), Values(es[t].bits), css[t]);
      DiscrepancyOf(r, es[t]);
    }
  }

  lemma DiscrepancyOf<F>(r: Ring<F>, e: EdabitP<F>)
    ensures Discrepancy(r, Values(e.bits), e.value.x) == TupleDiscrepancy(r, e)
  {
  }

  /** Whatever corrections were sent: everything that is checked vanishes exactly when all corrections are right and all
      tuples are consistent. */
  lemma BatchExact<F(!new)>(pred: Pred, r: Ring<F>, d2: F, dp: Fp, es: seq<EdabitP<F>>, fs: seq<EdabitV<F>>,
                            k: nat, ps: seq<HdDabitP<F>>, vs: seq<HdDabitV<F>>, xs: seq<F>, css: seq<seq<bool>>)
    requires IsBinary(r) && AuthEdabits(r, d2, dp, es, fs, k) && HdDabitsOk(pred, r, d2, dp, ps, vs, xs)
    requires |ps| == Times(|es|, k) && Corrected(|es|, k, css)
    ensures |fs| == |es|
    ensures var n, right, zero := |es|, AllRight(r, es, k, xs, css, |es|), RemaindersZero(r, es, k, xs, css, |es|);
            && Mean(r, d2, BatchPolys(r, es, k, ps, css, n), BatchKeys(r, d2, fs, k, vs, css, n), right)
            && Mean(FP, dp, ValuePolys(es, k, ps, css, n), ValueKeys(dp, fs, k, vs, css, n), zero)
            && (right && zero <==> right && AllConsistent(r, es))
  {
    hide IsBinary, AuthEdabits, HdDabitsOk, Times, AllRight, RemaindersZero, AllConsistent, BatchPolys, BatchKeys,
         ValuePolys, ValueKeys, Mean;
    BatchMean(pred, r, d2, dp, es, fs, k, ps, vs, xs, css, |es|);
    ValueMean(pred, r, d2, dp, es, fs, k, ps, vs, xs, css, |es|);
    if AllRight(r, es, k, xs, css, |es|) {
      RightRemainders(pred, r, d2, dp, es, fs, k, ps, vs, xs, css);
    }
  }

  lemma {:induction false} BatchCount<F>(r: Ring<F>, es: seq<EdabitP<F>>, k: nat, ps: seq<HdDabitP<F>>,
                                         css: seq<seq<bool>>, m: nat)
    requires m <= |es| && m <= |css| && |ps| == Times(|es|, k)
    ensures |BatchPolys(r, es, k, ps, css, m)| == Times(m, k)
  {
    hide TuplePolys;
    if m > 0 {
      BatchCount(r, es, k, ps, css, m - 1);
      TimesMonotone(m, |es|, k);
    }
  }

  /** With both keys non-zero, a wrong correction or an inconsistent tuple passes the binary check for at most n * k
      challenges, or the check in the prime field for at most n. */
  lemma FewChallengesAcceptConversions<F(!new)>(pred: Pred, r: Ring<F>, d2: F, dp: Fp, es: seq<EdabitP<F>>,
                                                fs: seq<EdabitV<F>>, k: nat, ps: seq<HdDabitP<F>>,
                                                vs: seq<HdDabitV<F>>, xs: seq<F>, css: seq<seq<bool>>,
                                                mask2: F -> seq<F>, chis2: set<F>, maskP: Fp -> seq<Fp>,
                                                chisP: set<Fp>)
    requires IsBinary(r) && IsDomain(r) && d2 != r.zero && dp != 0
    requires AuthEdabits(r, d2, dp, es, fs, k) && HdDabitsOk(pred, r, d2, dp, ps, vs, xs)
    requires |ps| == Times(|es|, k) && Corrected(|es|, k, css) && |fs| == |es|
    requires !(AllRight(r, es, k, xs, css, |es|) && AllConsistent(r, es))
    requires Proper(BatchPolys(r, es, k, ps, css, |es|)) && Proper(ValuePolys(es, k, ps, css, |es|))
    requires Accepting(r, d2, BatchPolys(r, es, k, ps, css, |es|), BatchKeys(r, d2, fs, k, vs, css, |es|), mask2, chis2)
    requires Accepting(FP, dp, ValuePolys(es, k, ps, css, |es|), ValueKeys(dp, fs, k, vs, css, |es|), maskP, chisP)
    ensures |chis2| <= Times(|es|, k) || |chisP| <= |es|
  {
    hide IsBinary, IsDomain, AuthEdabits, HdDabitsOk, Times, AllRight, RemaindersZero, AllConsistent, BatchPolys,
         BatchKeys, ValuePolys, ValueKeys, Mean, Accepting;
    BatchExact(pred, r, d2, dp, es, fs, k, ps, vs, xs, css);
    BatchCount(r, es, k, ps, css, |es|);
    FpIsDomain();
    if AllRight(r, es, k, xs, css, |es|) {
      FewAccepting(FP, dp, ValuePolys(es, k, ps, css, |es|), ValueKeys(dp, fs, k, vs, css, |es|), maskP, chisP);
    } else {
      FewAccepting(r, d2, BatchPolys(r, es, k, ps, css, |es|), BatchKeys(r, d2, fs, k, vs, css, |es|), mask2, chis2);
    }
  }
}
