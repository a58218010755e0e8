/** Whole verifications of conversion tuples, and their exact price. */
module CheddaConvRun {
  import opened Options
  import opened Arith
  import opened Rings
  import opened PrimeField
  import opened Bits
  import opened Polynomials
  import opened Homcom
  import opened FdabitRun
  import opened EdabitConversion
  import opened EdabitConversionRun
  import opened HdQuicksilver
  import opened HdMacs
  import opened HdValues
  import opened CheddaPrg
  import opened CheddaBits
  import opened CheddaChecks
  import opened CheddaConv
  import opened CheddaLists

  method GenPowersOfTwo(k: nat) returns (ps: seq<Fp>)
    ensures |ps| >= k && forall i :: 0 <= i < |ps| ==> ps[i] == ToFp(Pow2(i))
  {
    var two := FpAdd(1, 1);
    ToFpSmall(1);
    AddHom(1, 1);
    assert Pow2(0) == 1 && Pow2(1) == 2;
    var pot := two;
    ps := [1, two];
    var i := 2;
    while i < k
      invariant 2 <= i && |ps| >= i && |ps| == (if i > 2 then i else 2) && pot == ToFp(Pow2(i - 1))
      invariant forall j :: 0 <= j < |ps| ==> ps[j] == ToFp(Pow2(j))
    {
      MulHom(Pow2(i - 1), 2);
      pot := FpMul(pot, two);
      ps := ps + [pot];
      i := i + 1;
    }
  }

  /** The corrections that an honest prover sends for one tuple. */
  method Corrections<F(!new, ==)>(r: Ring<F>, bits: seq<MacProver<F>>, ps: seq<HdDabitP<F>>,
                                  ghost pred: Pred, ghost d2: F, ghost dp: Fp, ghost vs: seq<HdDabitV<F>>,
                                  ghost xs: seq<F>) returns (cs: seq<bool>)
    requires IsBinary(r) && HdDabitsOk(pred, r, d2, dp, ps, vs, xs) && |bits| == |ps| && AreBits(r, Values(bits))
    ensures RightCorrections(xs, Values(bits), cs)
  {
    BinaryTables(r);
    assert r.zero != r.one;
    hide IsBinary, IsRing, Eval;
    cs := [];
    for i := 0 to |bits|
      invariant |cs| == i && forall j :: 0 <= j < i ==> (cs[j] <==> xs[j] != Values(bits)[j])
    {
      assert HdDabitOk(pred, r, d2, dp, ps[i], vs[i], xs[i]);
      assert IsBit(r, Values(bits)[i]);
      var top := ps[i].c2[|ps[i].c2| - 1];
      cs := cs + [r.add(bits[i].x, top) == r.one];
    }
  }

  /** The correction of one bit is proved in the binary field. */
  method RunCorrection<F(!new, ==)>(sp: QSStateProver<F>, sv: QSStateVerifier<F>, ghost d: nat, a: seq<F>, b: HdKey<F>,
                                    ghost x: F, m: MacProver<F>, l: MacVerifier<F>, c: bool)
    requires QsOk(sp, sv, d) && IsBinary(sp.r) && IsBit(sp.r, x) && Hd(sp.r, sv.delta, a, b, x, d)
    requires Auth(sp.r, sv.delta, m, l) && IsBit(sp.r, m.x) && (c <==> x != m.x)
    modifies sp, sp.state, sv, sv.state
    ensures QsOk(sp, sv, d) && sp.state == old(sp.state) && sv.state == old(sv.state)
    ensures sp.checked == old(sp.checked) + [CorrectionPoly(sp.r, a, m, c)]
    ensures sv.checked == old(sv.checked) + [CorrectionKey(sp.r, sv.delta, b, l, c)]
  {
    hide QsOk, Hd, IsRing, HdAdd, KeyAdd, HdAddCst, KeyAddCst, Auth, QsState, QsKey, Eval, IsBinary, FromMac,
         KeyFromMac, CheddaConv.Difference;
    var y := if c then sp.r.one else sp.r.zero;
    QsRing(sp, sv, d);
    CorrectionShape(sp.r, sv.delta, a, b, x, d, m, l, c);
    var t := new HDMacProver.Load(sp.r, a);
    var s := new HDMacProver.From(sp.r, m);
    t.AddAssign(s);
    t.AddAssignConstant(y);
    var u := new HDMacVerifier.Load(sv.r, b);
    var w := new HDMacVerifier.From(sv.r, l);
    u.AddAssign(sv.delta, w);
    u.AddAssignConstant(sv.delta, y);
    RunCheckZero(sp, sv, d, t, u);
  }

  /** A right correction makes the checked difference zero. */
  lemma CorrectionShape<F(!new)>(r: Ring<F>, delta: F, a: seq<F>, b: HdKey<F>, x: F, d: nat, m: MacProver<F>,
                                 l: MacVerifier<F>, c: bool)
    requires IsBinary(r) && IsBit(r, x) && Hd(r, delta, a, b, x, d) && Auth(r, delta, m, l) && IsBit(r, m.x)
    requires (c <==> x != m.x)
    ensures |a| >= 2 && b.degree >= 1 && HdAdd(r, a, FromMac(r, m)) != []
    ensures var y := if c then r.one else r.zero;
            && CorrectionPoly(r, a, m, c) == HdAddCst(r, HdAdd(r, a, FromMac(r, m)), y)
            && CorrectionKey(r, delta, b, l, c) == KeyAddCst(r, delta, KeyAdd(r, delta, b, KeyFromMac(r, l)), y)
    ensures Hd(r, delta, CorrectionPoly(r, a, m, c), CorrectionKey(r, delta, b, l, c), r.zero, d)
  {
    hide Eval;
    assert |a| >= 2 && b.degree >= 1;
    DifferenceExact(r, x, m.x, c);
    hide IsBinary, CheddaConv.Difference;
    assert IsRing(r) by { BinaryIsRing(r); }
    hide IsRing, Auth;
    CorrectionMean(r, delta, a, b, x, d, m, l, c);
  }

  lemma BinaryIsRing<F(!new)>(r: Ring<F>)
    requires IsBinary(r)
    ensures IsRing(r)
  {
  }

  ghost predicate Running<F(!new)>(r: Ring<F>, delta: F, acc: HDMacProver<F>, key: HDMacVerifier<F>, y: F, d: nat)
    reads acc, key
  {
    acc.Valid() && key.Valid() && acc.r == key.r == r && Hd(r, delta, acc.Full(), key.Key(), y, d)
  }

  /** Exactly which polynomial and key a running value has. */
  ghost predicate Holding<F(!new)>(r: Ring<F>, acc: HDMacProver<F>, key: HDMacVerifier<F>, c: seq<F>, k: HdKey<F>)
    reads acc, key
  {
    acc.Valid() && key.Valid() && acc.r == key.r == r && acc.Full() == c && key.Key() == k
  }

  /** The corrected daBit, times a power of two, is taken off the running value. */
  method RunSubtract(delta: Fp, acc: HDMacProver<Fp>, key: HDMacVerifier<Fp>, ghost y: Fp, ghost e: nat,
                     a: seq<Fp>, b: HdKey<Fp>, ghost x: Fp, ghost d: nat, c: bool, pow: Fp)
    requires Running(FP, delta, acc, key, y, e) && Hd(FP, delta, a, b, x, d) && e <= d && d >= 1
    modifies acc, key
    ensures Running(FP, delta, acc, key, FP.Sub(y, FpMul(pow, Flipped(c, x))), d)
    ensures acc.Full() == HdSub(FP, old(acc.Full()), ScaleSeq(FP, pow, FlipP(c, a)))
    ensures key.Key() == KeySub(FP, delta, old(key.Key()), KeyScale(FP, pow, FlipV(delta, c, b)))
  {
    hide Hd, IsRing, HdSub, KeySub, HdSubCst, KeySubCst, ScaleSeq, KeyScale, Eval, Flipped;
    FpIsRing();
    SubtractHd(delta, acc.Full(), key.Key(), y, e, a, b, x, d, c, pow);
    var t := new HDMacProver.Load(FP, a);
    var u := new HDMacVerifier.Load(FP, b);
    if c {
      t.SubAssignConstant(1);
      t.MulAssignConstant(FpNeg(1));
      u.SubAssignConstant(delta, 1);
      u.MulAssignConstant(FpNeg(1));
    }
    t.MulAssignConstant(pow);
    u.MulAssignConstant(pow);
    acc.SubAssign(t);
    key.SubAssign(delta, u);
  }

  /** One bit of a tuple, in both fields. */
  method RunTupleBit<F(!new, ==)>(sp2: QSStateProver<F>, sv2: QSStateVerifier<F>, delta: Fp, acc: HDMacProver<Fp>,
                                  key: HDMacVerifier<Fp>, ghost pred: Pred, ghost y: Fp, ghost e: nat, a: HdDabitP<F>,
                                  b: HdDabitV<F>, ghost x: F, m: MacProver<F>, l: MacVerifier<F>, c: bool, pow: Fp)
    requires QsOk(sp2, sv2, pred.D2()) && IsBinary(sp2.r) && HdDabitOk(pred, sp2.r, sv2.delta, delta, a, b, x)
    requires Auth(sp2.r, sv2.delta, m, l) && IsBit(sp2.r, m.x) && (c <==> x != m.x)
    requires Running(FP, delta, acc, key, y, e) && e <= pred.DP()
    requires {acc as object, key} !! {sp2 as object, sv2, sp2.state, sv2.state}
    modifies sp2, sp2.state, sv2, sv2.state, acc, key
    ensures sp2.state == old(sp2.state) && sv2.state == old(sv2.state)
    ensures QsOk(sp2, sv2, pred.D2())
    ensures sp2.checked == old(sp2.checked) + [CorrectionPoly(sp2.r, a.c2, m, c)]
    ensures sv2.checked == old(sv2.checked) + [CorrectionKey(sp2.r, sv2.delta, b.k2, l, c)]
    ensures Running(FP, delta, acc, key, FP.Sub(y, FpMul(pow, Flipped(c, BitNat(sp2.r, x)))), pred.DP())
    ensures acc.Full() == HdSub(FP, old(acc.Full()), ScaleSeq(FP, pow, FlipP(c, a.cp)))
    ensures key.Key() == KeySub(FP, delta, old(key.Key()), KeyScale(FP, pow, FlipV(delta, c, b.kp)))
  {
    hide IsRing, QsOk, Hd, Auth, IsBinary, Running, Flipped, BitNat, IsBit, CorrectionPoly, CorrectionKey, HdSub,
         KeySub, FlipP, FlipV;
    RunCorrection(sp2, sv2, pred.D2(), a.c2, b.k2, x, m, l, c);
    RunSubtract(delta, acc, key, y, e, a.cp, b.kp, BitNat(sp2.r, x), pred.DP(), c, pow);
  }

  /** All bits of a tuple. */
  method RunTupleBits<F(!new, ==)>(sp2: QSStateProver<F>, sv2: QSStateVerifier<F>, delta: Fp, acc: HDMacProver<Fp>,
                                   key: HDMacVerifier<Fp>, ghost pred: Pred, ghost value: Fp, bits: seq<MacProver<F>>,
                                   keys: seq<MacVerifier<F>>, ps: seq<HdDabitP<F>>, vs: seq<HdDabitV<F>>,
                                   ghost xs: seq<F>, cs: seq<bool>, pows: seq<Fp>, ghost m: MacProver<Fp>,
                                   ghost l: MacVerifier<Fp>)
    requires QsOk(sp2, sv2, DegreeFor(|ps|, pred.D2())) && IsBinary(sp2.r)
    requires AuthAll(sp2.r, sv2.delta, bits, keys) && AreBits(sp2.r, Values(bits)) && |bits| == |ps|
    requires HdDabitsOk(pred, sp2.r, sv2.delta, delta, ps, vs, xs) && RightCorrections(xs, Values(bits), cs)
    requires |pows| >= |ps| && forall i :: 0 <= i < |pows| ==> pows[i] == ToFp(Pow2(i))
    requires Running(FP, delta, acc, key, value, 1) && acc.Full() == FromMac(FP, m) && key.Key() == KeyFromMac(FP, l)
    requires {acc as object, key} !! {sp2 as object, sv2, sp2.state, sv2.state}
    modifies sp2, sp2.state, sv2, sv2.state, acc, key
    ensures sp2.state == old(sp2.state) && sv2.state == old(sv2.state)
    ensures QsOk(sp2, sv2, DegreeFor(|ps|, pred.D2()))
    ensures sp2.checked == old(sp2.checked) + TuplePolys(sp2.r, bits, ps, cs)
    ensures sv2.checked == old(sv2.checked) + TupleKeys(sp2.r, sv2.delta, keys, vs, cs)
    ensures |cs| == |xs|
    ensures Running(FP, delta, acc, key, Remainder(value, BitNumbers(sp2.r, xs), cs), DegreeFor(|ps|, pred.DP()))
    ensures acc.Full() == RemainderPoly(m, ps, cs) && key.Key() == RemainderKey(delta, l, vs, cs)
  {
    hide IsRing, QsOk, Hd, Auth, IsBinary, AuthAll, Running, HdDabitOk, HdDabitsOk, SameBits, AreBits,
         RightCorrections, Remainder, Flipped, BitNat, IsBit, ToFp, Pow2, TuplePolys, TupleKeys, RemainderPoly,
         RemainderKey, CorrectionPoly, CorrectionKey, HdSub, KeySub, FlipP, FlipV, FromMac, KeyFromMac;
    ghost var r := sp2.r;
    var k := |ps|;
    ghost var polys, qs := sp2.checked, sv2.checked;
    BitShapes(pred, r, sv2.delta, delta, bits, keys, ps, vs, xs, cs);
    ghost var ys := BitNumbers(r, xs);
    assert ys[..0] == [] && cs[..0] == [];
    NothingTaken(value);
    NoneListed(r, sv2.delta, delta, bits, keys, ps, vs, cs, m, l);
    RunningValid(FP, delta, acc, key, value, 1);
    for i := 0 to k
      invariant sp2.state == old(sp2.state) && sv2.state == old(sv2.state)
      invariant QsOk(sp2, sv2, DegreeFor(k, pred.D2()))
      invariant sp2.checked == polys + TuplePolys(r, bits[..i], ps[..i], cs[..i])
      invariant sv2.checked == qs + TupleKeys(r, sv2.delta, keys[..i], vs[..i], cs[..i])
      invariant Holding(FP, acc, key, RemainderPoly(m, ps[..i], cs[..i]), RemainderKey(delta, l, vs[..i], cs[..i]))
      invariant Running(FP, delta, acc, key, Remainder(value, ys[..i], cs[..i]), DegreeFor(i, pred.DP()))
    {
      DabitAt(pred, r, sv2.delta, delta, ps, vs, xs, i);
      BitPair(r, sv2.delta, bits, keys, i);
      RightAt(xs, Values(bits), cs, i);
      RemainderGrows(value, ys, cs, i);
      OneListed(r, sv2.delta, delta, bits, keys, ps, vs, cs, m, l, i);
      RunTupleBit(sp2, sv2, delta, acc, key, pred, Remainder(value, ys[..i], cs[..i]), DegreeFor(i, pred.DP()), ps[i],
                  vs[i], xs[i], bits[i], keys[i], cs[i], pows[i]);
      RunningValid(FP, delta, acc, key, Remainder(value, ys[..i + 1], cs[..i + 1]), pred.DP());
    }
    assert ys[..k] == ys && cs[..k] == cs && bits[..k] == bits && keys[..k] == keys && ps[..k] == ps && vs[..k] == vs;
  }

  lemma NoneListed<F>(r: Ring<F>, d2: F, dp: Fp, bits: seq<MacProver<F>>, keys: seq<MacVerifier<F>>,
                      ps: seq<HdDabitP<F>>, vs: seq<HdDabitV<F>>, cs: seq<bool>, m: MacProver<Fp>, l: MacVerifier<Fp>)
    requires |bits| == |keys| == |ps| == |vs| == |cs|
    ensures TuplePolys(r, bits[..0], ps[..0], cs[..0]) == [] && TupleKeys(r, d2, keys[..0], vs[..0], cs[..0]) == []
    ensures RemainderPoly(m, ps[..0], cs[..0]) == FromMac(FP, m)
    ensures RemainderKey(dp, l, vs[..0], cs[..0]) == KeyFromMac(FP, l)
  {
  }

  lemma OneListed<F>(r: Ring<F>, d2: F, dp: Fp, bits: seq<MacProver<F>>, keys: seq<MacVerifier<F>>,
                     ps: seq<HdDabitP<F>>, vs: seq<HdDabitV<F>>, cs: seq<bool>, m: MacProver<Fp>, l: MacVerifier<Fp>,
                     i: nat)
    requires |bits| == |keys| == |ps| == |vs| == |cs| && i < |ps|
    ensures TuplePolys(r, bits[..i + 1], ps[..i + 1], cs[..i + 1])
         == TuplePolys(r, bits[..i], ps[..i], cs[..i]) + [CorrectionPoly(r, ps[i].c2, bits[i], cs[i])]
    ensures TupleKeys(r, d2, keys[..i + 1], vs[..i + 1], cs[..i + 1])
         == TupleKeys(r, d2, keys[..i], vs[..i], cs[..i]) + [CorrectionKey(r, d2, vs[i].k2, keys[i], cs[i])]
    ensures RemainderPoly(m, ps[..i + 1], cs[..i + 1])
         == HdSub(FP, RemainderPoly(m, ps[..i], cs[..i]), ScaleSeq(FP, ToFp(Pow2(i)), FlipP(cs[i], ps[i].cp)))
    ensures RemainderKey(dp, l, vs[..i + 1], cs[..i + 1])
         == KeySub(FP, dp, RemainderKey(dp, l, vs[..i], cs[..i]),
                   KeyScale(FP, ToFp(Pow2(i)), FlipV(dp, cs[i], vs[i].kp)))
  {
    hide CorrectionPoly, CorrectionKey, HdSub, KeySub, FlipP, FlipV, ToFp, Pow2, ScaleSeq, KeyScale;
    assert ps[..i + 1][..i] == ps[..i] && cs[..i + 1][..i] == cs[..i] && vs[..i + 1][..i] == vs[..i];
  }

  /** A tuple's value with all its corrected daBits taken off: its discrepancy. */
  method RunTupleRemainder<F(!new, ==)>(sp2: QSStateProver<F>, sv2: QSStateVerifier<F>, delta: Fp, ghost pred: Pred,
                                        e: EdabitP<F>, f: EdabitV<F>, ps: seq<HdDabitP<F>>, vs: seq<HdDabitV<F>>,
                                        ghost xs: seq<F>, cs: seq<bool>, pows: seq<Fp>)
    returns (acc: HDMacProver<Fp>, key: HDMacVerifier<Fp>)
    requires QsOk(sp2, sv2, DegreeFor(|ps|, pred.D2())) && IsBinary(sp2.r)
    requires AuthEdabit(sp2.r, sv2.delta, delta, e, f) && AreBits(sp2.r, Values(e.bits)) && |e.bits| == |ps|
    requires HdDabitsOk(pred, sp2.r, sv2.delta, delta, ps, vs, xs) && RightCorrections(xs, Values(e.bits), cs)
    requires |pows| >= |ps| && forall i :: 0 <= i < |pows| ==> pows[i] == ToFp(Pow2(i))
    modifies sp2, sp2.state, sv2, sv2.state
    ensures fresh(acc) && fresh(key)
    ensures sp2.state == old(sp2.state) && sv2.state == old(sv2.state)
    ensures QsOk(sp2, sv2, DegreeFor(|ps|, pred.D2()))
    ensures sp2.checked == old(sp2.checked) + TuplePolys(sp2.r, e.bits, ps, cs)
    ensures sv2.checked == old(sv2.checked) + TupleKeys(sp2.r, sv2.delta, f.bits, vs, cs)
    ensures Running(FP, delta, acc, key, TupleDiscrepancy(sp2.r, e), DegreeFor(|ps|, pred.DP()))
    ensures acc.Full() == RemainderPoly(e.value, ps, cs) && key.Key() == RemainderKey(delta, f.value, vs, cs)
  {
    hide IsRing, QsOk, Hd, Auth, IsBinary, AuthAll, FromMac, KeyFromMac, Running, HdDabitsOk, SameBits, AreBits,
         RightCorrections, Remainder, Eval, ToFp, Pow2, DegreeFor, TuplePolys, TupleKeys, RemainderPoly, RemainderKey;
    ghost var r, ys := sp2.r, BitNumbers(sp2.r, xs);
    TupleShapes(pred, r, sv2.delta, delta, e, f, ps, vs, xs, cs);
    FpIsRing();
    acc := new HDMacProver.From(FP, e.value);
    key := new HDMacVerifier.From(FP, f.value);
    StartHd(FP, delta, acc, key, e.value, f.value);
    RunTupleBits(sp2, sv2, delta, acc, key, pred, e.value.x, e.bits, f.bits, ps, vs, xs, cs, pows, e.value, f.value);
    NumbersSame(pred, r, sv2.delta, delta, ps, vs, xs);
    RemainderIs(r, e.value.x, xs, ys, Values(e.bits), cs);
  }

  /** One tuple: what the prover asserts about it holds exactly when its value is that of its bits. */
  method RunTuple<F(!new, ==)>(sp2: QSStateProver<F>, sv2: QSStateVerifier<F>, spp: QSStateProver<Fp>,
                               svp: QSStateVerifier<Fp>, ghost pred: Pred, e: EdabitP<F>, f: EdabitV<F>,
                               ps: seq<HdDabitP<F>>, vs: seq<HdDabitV<F>>, ghost xs: seq<F>, cs: seq<bool>,
                               pows: seq<Fp>) returns (ok: bool)
    requires QsOk(sp2, sv2, DegreeFor(|ps|, pred.D2())) && QsOk(spp, svp, DegreeFor(|ps|, pred.DP())) && IsBinary(sp2.r)
    requires spp.r == FP
    requires AuthEdabit(sp2.r, sv2.delta, svp.delta, e, f) && AreBits(sp2.r, Values(e.bits)) && |e.bits| == |ps|
    requires HdDabitsOk(pred, sp2.r, sv2.delta, svp.delta, ps, vs, xs) && RightCorrections(xs, Values(e.bits), cs)
    requires |pows| >= |ps| && forall i :: 0 <= i < |pows| ==> pows[i] == ToFp(Pow2(i))
    requires {sp2 as object, sv2, sp2.state, sv2.state} !! {spp as object, svp, spp.state, svp.state}
    modifies sp2, sp2.state, sv2, sv2.state, spp, spp.state, svp, svp.state
    ensures sp2.state == old(sp2.state) && sv2.state == old(sv2.state) && spp.state == old(spp.state)
    ensures svp.state == old(svp.state)
    ensures ok <==> TupleDiscrepancy(sp2.r, e) == 0
    ensures ok ==> QsOk(sp2, sv2, DegreeFor(|ps|, pred.D2())) && QsOk(spp, svp, DegreeFor(|ps|, pred.DP()))
    ensures ok ==>
      && sp2.checked == old(sp2.checked) + TuplePolys(sp2.r, e.bits, ps, cs)
      && sv2.checked == old(sv2.checked) + TupleKeys(sp2.r, sv2.delta, f.bits, vs, cs)
      && spp.checked == old(spp.checked) + [RemainderPoly(e.value, ps, cs)]
      && svp.checked == old(svp.checked) + [RemainderKey(svp.delta, f.value, vs, cs)]
  {
    hide IsRing, QsOk, Hd, Auth, IsBinary, AuthAll, FromMac, KeyFromMac, Running, HdDabitsOk, SameBits, AreBits,
         RightCorrections, Remainder, Eval, ToFp, Pow2, DegreeFor, TupleDiscrepancy, AuthEdabit, TuplePolys, TupleKeys,
         RemainderPoly, RemainderKey;
    ghost var r := sp2.r;
    var acc, key := RunTupleRemainder(sp2, sv2, svp.delta, pred, e, f, ps, vs, xs, cs, pows);
    RunningValue(FP, svp.delta, acc, key, TupleDiscrepancy(r, e), DegreeFor(|ps|, pred.DP()));
    var value := acc.GetValue();
    ok := value == 0;
    if ok {
      RunCheckZero(spp, svp, DegreeFor(|ps|, pred.DP()), acc, key);
    }
  }

  lemma TupleShapes<F(!new)>(pred: Pred, r: Ring<F>, d2: F, dp: Fp, e: EdabitP<F>, f: EdabitV<F>, ps: seq<HdDabitP<F>>,
                             vs: seq<HdDabitV<F>>, xs: seq<F>, cs: seq<bool>)
    requires IsBinary(r) && AuthEdabit(r, d2, dp, e, f) && HdDabitsOk(pred, r, d2, dp, ps, vs, xs)
    requires RightCorrections(xs, Values(e.bits), cs)
    ensures r.zero != r.one && |ps| == |vs| == |xs| == |cs| == |e.bits| == |f.bits| && Auth(FP, dp, e.value, f.value)
    ensures AuthAll(r, d2, e.bits, f.bits)
  {
    assert |Values(e.bits)| == |e.bits|;
  }

  lemma BitShapes<F(!new)>(pred: Pred, r: Ring<F>, d2: F, dp: Fp, bits: seq<MacProver<F>>, keys: seq<MacVerifier<F>>,
                           ps: seq<HdDabitP<F>>, vs: seq<HdDabitV<F>>, xs: seq<F>, cs: seq<bool>)
    requires AuthAll(r, d2, bits, keys) && HdDabitsOk(pred, r, d2, dp, ps, vs, xs)
    requires RightCorrections(xs, Values(bits), cs)
    ensures |ps| == |vs| == |xs| == |cs| == |bits| == |keys|
  {
    assert |Values(bits)| == |bits|;
  }

  lemma RightAt<F>(ds: seq<F>, bs: seq<F>, cs: seq<bool>, i: nat)
    requires RightCorrections(ds, bs, cs) && i < |cs|
    ensures cs[i] <==> ds[i] != bs[i]
  {
  }

  lemma StartHd<F(!new)>(r: Ring<F>, delta: F, acc: HDMacProver<F>, key: HDMacVerifier<F>, m: MacProver<F>,
                         l: MacVerifier<F>)
    requires IsRing(r) && Auth(r, delta, m, l) && acc.Valid() && key.Valid() && acc.r == key.r == r
    requires acc.Full() == FromMac(r, m) && key.Key() == KeyFromMac(r, l)
    ensures Running(r, delta, acc, key, m.x, 1)
  {
    hide Eval;
    FromMacAuth(r, delta, m, l);
  }

  lemma RunningValid<F(!new)>(r: Ring<F>, delta: F, acc: HDMacProver<F>, key: HDMacVerifier<F>, y: F, d: nat)
    requires Running(r, delta, acc, key, y, d)
    ensures acc.Valid() && key.Valid() && acc.r == key.r == r
  {
  }

  lemma RunningValue<F(!new)>(r: Ring<F>, delta: F, acc: HDMacProver<F>, key: HDMacVerifier<F>, y: F, d: nat)
    requires Running(r, delta, acc, key, y, d)
    ensures acc.Valid() && key.Valid() && acc.r == key.r == r && acc.Full() != [] && Value(acc.Full()) == y
    ensures Hd(r, delta, acc.Full(), key.Key(), y, d)
  {
    hide Eval;
  }

  lemma BitPair<F(!new)>(r: Ring<F>, delta: F, bits: seq<MacProver<F>>, keys: seq<MacVerifier<F>>, i: nat)
    requires AuthAll(r, delta, bits, keys) && AreBits(r, Values(bits)) && i < |bits|
    ensures i < |keys| && Auth(r, delta, bits[i], keys[i]) && IsBit(r, bits[i].x) && Values(bits)[i] == bits[i].x
  {
    assert Values(bits)[i] == bits[i].x;
  }

  // ---- a whole verification ----

  /** The checks of all tuples, one after the other, are exactly the listed ones, for the corrections that it returns;
      an inconsistent tuple stops the prover. */
  method RunTuples<F(!new, ==)>(sp2: QSStateProver<F>, sv2: QSStateVerifier<F>, spp: QSStateProver<Fp>,
                                svp: QSStateVerifier<Fp>, ghost pred: Pred, es: seq<EdabitP<F>>, fs: seq<EdabitV<F>>,
                                k: nat, ps: seq<HdDabitP<F>>, vs: seq<HdDabitV<F>>, ghost xs: seq<F>)
    returns (ok: bool, css: seq<seq<bool>>)
    requires QsOk(sp2, sv2, DegreeFor(k, pred.D2())) && QsOk(spp, svp, DegreeFor(k, pred.DP())) && IsBinary(sp2.r)
    requires spp.r == FP
    requires sp2.checked == [] && spp.checked == [] && sv2.checked == [] && svp.checked == []
    requires AuthEdabits(sp2.r, sv2.delta, svp.delta, es, fs, k)
    requires HdDabitsOk(pred, sp2.r, sv2.delta, svp.delta, ps, vs, xs)
    requires |ps| == Times(|es|, k)
    requires {sp2 as object, sv2, sp2.state, sv2.state} !! {spp as object, svp, spp.state, svp.state}
    modifies sp2, sp2.state, sv2, sv2.state, spp, spp.state, svp, svp.state
    ensures sp2.state == old(sp2.state) && sv2.state == old(sv2.state) && spp.state == old(spp.state)
    ensures svp.state == old(svp.state)
    ensures ok <==> AllConsistent(sp2.r, es)
    ensures ok ==> QsOk(sp2, sv2, DegreeFor(k, pred.D2())) && QsOk(spp, svp, DegreeFor(k, pred.DP()))
    ensures ok ==> BatchChecked(sp2.r, sv2.delta, svp.delta, es, fs, k, ps, vs, xs, css, |es|, sp2.checked, sv2.checked,
                                spp.checked, svp.checked)
  {
    hide IsRing, QsOk, AuthEdabits, IsBinary, HdDabitsOk, DegreeFor, TupleDiscrepancy, BatchChecked, Times, Pow2, ToFp;
    ghost var r, d2, dp := sp2.r, sv2.delta, svp.delta;
    var pows := GenPowersOfTwo(k);
    var j := 0;
    ok, css := true, [];
    NoTimes(k);
    NoneChecked(r, d2, dp, es, fs, k, ps, vs, xs);
    for t := 0 to |es|
      invariant sp2.state == old(sp2.state) && sv2.state == old(sv2.state) && spp.state == old(spp.state)
      invariant svp.state == old(svp.state)
      invariant QsOk(sp2, sv2, DegreeFor(k, pred.D2())) && QsOk(spp, svp, DegreeFor(k, pred.DP()))
      invariant j == Times(t, k) && ok
      invariant BatchChecked(r, d2, dp, es, fs, k, ps, vs, xs, css, t, sp2.checked, sv2.checked, spp.checked,
                             svp.checked)
      invariant forall u :: 0 <= u < t ==> TupleDiscrepancy(r, es[u]) == 0
    {
      NextTimes(t, k);
      ok, css := RunNextTuple(sp2, sv2, spp, svp, pred, es, fs, k, ps, vs, xs, pows, j, t, css);
      if !ok {
        return;
      }
      j := j + k;
    }
  }

  /** What has been checked after m tuples: k right corrections for each, and the lists they make. */
  ghost predicate BatchChecked<F>(r: Ring<F>, d2: F, dp: Fp, es: seq<EdabitP<F>>, fs: seq<EdabitV<F>>, k: nat,
                                  ps: seq<HdDabitP<F>>, vs: seq<HdDabitV<F>>, xs: seq<F>, css: seq<seq<bool>>, m: nat,
                                  polys: seq<seq<F>>, keys: seq<HdKey<F>>, polysP: seq<seq<Fp>>,
                                  keysP: seq<HdKey<Fp>>)
  {
    && m <= |es| && |es| == |fs| && Corrected(m, k, css) && AllRight(r, es, k, xs, css, m)
    && polys == BatchPolys(r, es, k, ps, css, m) && keys == BatchKeys(r, d2, fs, k, vs, css, m)
    && polysP == ValuePolys(es, k, ps, css, m) && keysP == ValueKeys(dp, fs, k, vs, css, m)
  }

  lemma NoneChecked<F>(r: Ring<F>, d2: F, dp: Fp, es: seq<EdabitP<F>>, fs: seq<EdabitV<F>>, k: nat,
                       ps: seq<HdDabitP<F>>, vs: seq<HdDabitV<F>>, xs: seq<F>)
    requires AuthEdabits(r, d2, dp, es, fs, k)
    ensures BatchChecked(r, d2, dp, es, fs, k, ps, vs, xs, [], 0, [], [], [], [])
  {
  }

  lemma OneChecked<F>(r: Ring<F>, d2: F, dp: Fp, es: seq<EdabitP<F>>, fs: seq<EdabitV<F>>, k: nat,
                      ps: seq<HdDabitP<F>>, vs: seq<HdDabitV<F>>, xs: seq<F>, css: seq<seq<bool>>, m: nat,
                      polys: seq<seq<F>>, keys: seq<HdKey<F>>, polysP: seq<seq<Fp>>, keysP: seq<HdKey<Fp>>,
                      cs: seq<bool>)
    requires BatchChecked(r, d2, dp, es, fs, k, ps, vs, xs, css, m, polys, keys, polysP, keysP) && m < |es|
    requires |cs| == k && TupleRight(r, Part(xs, Times(m, k), k), es[m].bits, cs)
    ensures var p, v := Part(ps, Times(m, k), k), Part(vs, Times(m, k), k);
            BatchChecked(r, d2, dp, es, fs, k, ps, vs, xs, css + [cs], m + 1,
                         polys + TuplePolys(r, es[m].bits, p, cs), keys + TupleKeys(r, d2, fs[m].bits, v, cs),
                         polysP + [RemainderPoly(es[m].value, p, cs)], keysP + [RemainderKey(dp, fs[m].value, v, cs)])
  {
    hide TupleRight, TuplePolys, TupleKeys, RemainderPoly, RemainderKey, Part, Times;
    PrefixLists(r, d2, dp, es, fs, k, ps, vs, css, cs, m);
  }

  /** The lists of the first m tuples do not depend on what comes after. */
  lemma {:induction false} PrefixLists<F>(r: Ring<F>, d2: F, dp: Fp, es: seq<EdabitP<F>>, fs: seq<EdabitV<F>>, k: nat,
                                          ps: seq<HdDabitP<F>>, vs: seq<HdDabitV<F>>, css: seq<seq<bool>>,
                                          cs: seq<bool>, m: nat)
    requires m <= |es| == |fs| && m <= |css|
    ensures BatchPolys(r, es, k, ps, css + [cs], m) == BatchPolys(r, es, k, ps, css, m)
    ensures BatchKeys(r, d2, fs, k, vs, css + [cs], m) == BatchKeys(r, d2, fs, k, vs, css, m)
    ensures ValuePolys(es, k, ps, css + [cs], m) == ValuePolys(es, k, ps, css, m)
    ensures ValueKeys(dp, fs, k, vs, css + [cs], m) == ValueKeys(dp, fs, k, vs, css, m)
  {
    hide TuplePolys, TupleKeys, RemainderPoly, RemainderKey, Part, Times;
    if m > 0 {
      PrefixLists(r, d2, dp, es, fs, k, ps, vs, css, cs, m - 1);
    }
  }

  /** Tuple t, with its own daBits. */
  method RunNextTuple<F(!new, ==)>(sp2: QSStateProver<F>, sv2: QSStateVerifier<F>, spp: QSStateProver<Fp>,
                                   svp: QSStateVerifier<Fp>, ghost pred: Pred, es: seq<EdabitP<F>>,
                                   fs: seq<EdabitV<F>>, k: nat, ps: seq<HdDabitP<F>>, vs: seq<HdDabitV<F>>,
                                   ghost xs: seq<F>, pows: seq<Fp>, j: nat, t: nat, css: seq<seq<bool>>)
    returns (ok: bool, css': seq<seq<bool>>)
    requires QsOk(sp2, sv2, DegreeFor(k, pred.D2())) && QsOk(spp, svp, DegreeFor(k, pred.DP())) && IsBinary(sp2.r)
    requires spp.r == FP && t < |es| && j == Times(t, k) && |ps| == Times(|es|, k)
    requires AuthEdabits(sp2.r, sv2.delta, svp.delta, es, fs, k)
    requires HdDabitsOk(pred, sp2.r, sv2.delta, svp.delta, ps, vs, xs)
    requires |pows| >= k && forall i :: 0 <= i < |pows| ==> pows[i] == ToFp(Pow2(i))
    requires BatchChecked(sp2.r, sv2.delta, svp.delta, es, fs, k, ps, vs, xs, css, t, sp2.checked, sv2.checked,
                          spp.checked, svp.checked)
    requires {sp2 as object, sv2, sp2.state, sv2.state} !! {spp as object, svp, spp.state, svp.state}
    modifies sp2, sp2.state, sv2, sv2.state, spp, spp.state, svp, svp.state
    ensures sp2.state == old(sp2.state) && sv2.state == old(sv2.state) && spp.state == old(spp.state)
    ensures svp.state == old(svp.state)
    ensures ok <==> TupleDiscrepancy(sp2.r, es[t]) == 0
    ensures ok ==> QsOk(sp2, sv2, DegreeFor(k, pred.D2())) && QsOk(spp, svp, DegreeFor(k, pred.DP()))
    ensures ok ==> BatchChecked(sp2.r, sv2.delta, svp.delta, es, fs, k, ps, vs, xs, css', t + 1, sp2.checked,
                                sv2.checked, spp.checked, svp.checked)
  {
    hide IsRing, QsOk, AuthEdabit, IsBinary, HdDabitsOk, AreBits, RightCorrections, ToFp, Pow2, DegreeFor,
         TupleDiscrepancy, AuthEdabits, BatchChecked, TuplePolys, TupleKeys, RemainderPoly, RemainderKey, Times;
    ghost var r, d2, dp := sp2.r, sv2.delta, svp.delta;
    TimesMonotone(t + 1, |es|, k);
    NextTimes(t, k);
    SliceOk(pred, r, d2, dp, ps, vs, xs, j, k);
    TupleAt(r, d2, dp, es, fs, k, t);
    ghost var x := xs[j..j + k];
    var cs := Corrections(sp2.r, es[t].bits, ps[j..j + k], pred, d2, dp, vs[j..j + k], x);
    CorrectionCount(x, Values(es[t].bits), cs);
    ok := RunTuple(sp2, sv2, spp, svp, pred, es[t], fs[t], ps[j..j + k], vs[j..j + k], x, cs, pows);
    OneChecked(r, d2, dp, es, fs, k, ps, vs, xs, css, t, old(sp2.checked), old(sv2.checked), old(spp.checked),
               old(svp.checked), cs);
    css' := css + [cs];
  }

  lemma CorrectionCount<F>(ds: seq<F>, bs: seq<F>, cs: seq<bool>)
    requires RightCorrections(ds, bs, cs)
    ensures |cs| == |ds|
  {
  }

  method RunNewCheck<F(!new, ==)>(p: FComProver<F>, v: FComVerifier<F>, chi: F, ghost d: nat)
    returns (sp: QSStateProver<F>, sv: QSStateVerifier<F>)
    requires IsRing(p.r) && p.r == v.r && d >= 1
    ensures fresh(sp) && fresh(sp.state) && fresh(sv) && fresh(sv.state)
    ensures QsOk(sp, sv, d) && sp.checked == [] && sv.checked == [] && sp.r == p.r && sv.delta == v.delta
    ensures sp.chi == chi
  {
    hide QSStateProver.Valid, QSStateVerifier.Valid, QsOk, IsRing;
    sp := new QSStateProver(p.r, chi);
    sv := new QSStateVerifier(v.r, v.delta, chi);
    FreshQs(sp, sv, d);
  }

  method RunBothFinish<F(!new, ==)>(sp2: QSStateProver<F>, sv2: QSStateVerifier<F>, spp: QSStateProver<Fp>,
                                    svp: QSStateVerifier<Fp>, ghost d2: nat, ghost dp: nat, p: CheddaProver<F>,
                                    v: CheddaVerifier<F>)
    returns (proof2: seq<F>, proofP: seq<Fp>)
    requires QsOk(sp2, sv2, d2) && QsOk(spp, svp, dp) && Linked(p.fcom2, v.fcom2) && Linked(p.fcomP, v.fcomP)
    requires sp2.r == p.fcom2.r && sv2.delta == v.fcom2.delta && spp.r == p.fcomP.r && svp.delta == v.fcomP.delta
    requires (sp2.checked != [] || d2 == 1) && (spp.checked != [] || dp == 1) && d2 >= 1 && dp >= 1
    requires {sp2 as object, sv2, sp2.state, sv2.state, p.fcom2, v.fcom2} !! {spp as object, svp, spp.state, svp.state,
        p.fcomP, v.fcomP}
    modifies sp2, sv2, spp, svp, p.fcom2, p.fcomP, v.fcom2, v.fcomP
    ensures Linked(p.fcom2, v.fcom2) && Linked(p.fcomP, v.fcomP)
    ensures proof2 == DeliveredProof(p.fcom2.r, p.fcom2.basis, p.fcom2.supply, old(p.fcom2.used), sp2.chi,
                                     old(sp2.checked))
    ensures proofP == DeliveredProof(p.fcomP.r, p.fcomP.basis, p.fcomP.supply, old(p.fcomP.used), spp.chi,
                                     old(spp.checked))
    ensures p.fcom2.used == old(p.fcom2.used) + CheckCost(d2, |p.fcom2.basis|)
    ensures v.fcom2.used == old(v.fcom2.used) + CheckCost(d2, |p.fcom2.basis|)
    ensures p.fcomP.used == old(p.fcomP.used) + CheckCost(dp, |p.fcomP.basis|)
    ensures v.fcomP.used == old(v.fcomP.used) + CheckCost(dp, |p.fcomP.basis|)
  {
    hide QsOk, Linked, Times, IsRing, DeliveredProof;
    var ok2, okP;
    ok2, proof2 := RunFinish(sp2, sv2, d2, p.fcom2, v.fcom2);
    okP, proofP := RunFinish(spp, svp, dp, p.fcomP, v.fcomP);
  }

  /** A new check in either field. */
  method RunNewChecks<F(!new, ==)>(p: CheddaProver<F>, v: CheddaVerifier<F>, chi2: F, chiP: Fp, ghost d2: nat,
                                   ghost dp: nat)
    returns (sp2: QSStateProver<F>, sv2: QSStateVerifier<F>, spp: QSStateProver<Fp>, svp: QSStateVerifier<Fp>)
    requires IsRing(p.fcom2.r) && p.fcom2.r == v.fcom2.r && p.fcomP.r == v.fcomP.r == FP && d2 >= 1 && dp >= 1
    ensures fresh(sp2) && fresh(sp2.state) && fresh(sv2) && fresh(sv2.state)
    ensures fresh(spp) && fresh(spp.state) && fresh(svp) && fresh(svp.state)
    ensures {sp2 as object, sv2, sp2.state, sv2.state} !! {spp as object, svp, spp.state, svp.state}
    ensures sp2.r == p.fcom2.r && sv2.delta == v.fcom2.delta && spp.r == FP && svp.delta == v.fcomP.delta
    ensures QsOk(sp2, sv2, d2) && QsOk(spp, svp, dp) && sp2.checked == [] && spp.checked == []
    ensures sv2.checked == [] && svp.checked == [] && sp2.chi == chi2 && spp.chi == chiP
  {
    FpIsRing();
    hide QsOk, IsRing;
    sp2, sv2 := RunNewCheck(p.fcom2, v.fcom2, chi2, d2);
    spp, svp := RunNewCheck(p.fcomP, v.fcomP, chiP, dp);
  }

  /** New checks, with all tuples checked. */
  method RunNewTuples<F(!new, ==)>(p: CheddaProver<F>, v: CheddaVerifier<F>, chi2: F, chiP: Fp, es: seq<EdabitP<F>>,
                                   fs: seq<EdabitV<F>>, k: nat, ps: seq<HdDabitP<F>>, vs: seq<HdDabitV<F>>,
                                   ghost xs: seq<F>)
    returns (sp2: QSStateProver<F>, sv2: QSStateVerifier<F>, spp: QSStateProver<Fp>, svp: QSStateVerifier<Fp>, ok: bool,
             css: seq<seq<bool>>)
    requires IsBinary(p.fcom2.r) && p.fcom2.r == v.fcom2.r && p.fcomP.r == v.fcomP.r == FP
    requires AuthEdabits(p.fcom2.r, v.fcom2.delta, v.fcomP.delta, es, fs, k)
    requires HdDabitsOk(p.prg.pred, p.fcom2.r, v.fcom2.delta, v.fcomP.delta, ps, vs, xs) && |ps| == Times(|es|, k)
    ensures fresh(sp2) && fresh(sp2.state) && fresh(sv2) && fresh(sv2.state)
    ensures fresh(spp) && fresh(spp.state) && fresh(svp) && fresh(svp.state)
    ensures {sp2 as object, sv2, sp2.state, sv2.state} !! {spp as object, svp, spp.state, svp.state}
    ensures sp2.r == p.fcom2.r && sv2.delta == v.fcom2.delta && spp.r == FP && svp.delta == v.fcomP.delta
    ensures ok <==> AllConsistent(p.fcom2.r, es)
    ensures ok ==> QsOk(sp2, sv2, DegreeFor(k, p.prg.pred.D2())) && QsOk(spp, svp, DegreeFor(k, p.prg.pred.DP()))
    ensures sp2.chi == chi2 && spp.chi == chiP
    ensures ok ==> BatchChecked(p.fcom2.r, v.fcom2.delta, v.fcomP.delta, es, fs, k, ps, vs, xs, css, |es|, sp2.checked,
                                sv2.checked, spp.checked, svp.checked)
  {
    ghost var pred := p.prg.pred;
    assert IsRing(p.fcom2.r);
    hide AuthEdabits, HdDabitsOk, QsOk, AllConsistent, Times, IsRing, IsBinary, DegreeFor, QSStateProver.Valid,
         QSStateVerifier.Valid, BatchChecked;
    DegreeOf(k, pred);
    sp2, sv2, spp, svp := RunNewChecks(p, v, chi2, chiP, DegreeFor(k, pred.D2()), DegreeFor(k, pred.DP()));
    ok, css := RunTuples(sp2, sv2, spp, svp, pred, es, fs, k, ps, vs, xs);
  }

  /** The checks and their ends. */
  method RunChecks<F(!new, ==)>(p: CheddaProver<F>, v: CheddaVerifier<F>, chi2: F, chiP: Fp, es: seq<EdabitP<F>>,
                                fs: seq<EdabitV<F>>, k: nat, ps: seq<HdDabitP<F>>, vs: seq<HdDabitV<F>>,
                                ghost xs: seq<F>) returns (ok: bool, trace: ConvProof<F>)
    requires Wired(p, v) && es != [] && AuthEdabits(p.fcom2.r, v.fcom2.delta, v.fcomP.delta, es, fs, k)
    requires HdDabitsOk(p.prg.pred, p.fcom2.r, v.fcom2.delta, v.fcomP.delta, ps, vs, xs) && |ps| == Times(|es|, k)
    modifies p.fcom2, p.fcomP, v.fcom2, v.fcomP
    ensures Wired(p, v) && (ok <==> AllConsistent(p.fcom2.r, es))
    ensures ok ==> ChecksTraced(old(StockOf(p.fcom2, p.fcomP)), chi2, chiP, es, k, ps, xs, trace)
    ensures ok ==> UsedBy(p, v) == old(UsedBy(p, v)).Plus(CheckCost(DegreeFor(k, p.prg.pred.D2()), |p.fcom2.basis|),
                    CheckCost(DegreeFor(k, p.prg.pred.DP()), |p.fcomP.basis|))
  {
    hide Wired, AuthEdabits, HdDabitsOk, QsOk, AllConsistent, Times, IsRing, IsBinary, Linked, DegreeFor,
         QSStateProver.Valid, QSStateVerifier.Valid, BatchChecked, ChecksTraced, DeliveredProof;
    ghost var pred, s, r := p.prg.pred, StockOf(p.fcom2, p.fcomP), p.fcom2.r;
    WiredParts(p, v);
    DegreeOf(k, pred);
    trace := ConvProof([], [], []);
    var sp2, sv2, spp, svp, css;
    sp2, sv2, spp, svp, ok, css := RunNewTuples(p, v, chi2, chiP, es, fs, k, ps, vs, xs);
    if ok {
      SomeChecked(|es|, k);
      ghost var polys, keys, polysP, keysP := sp2.checked, sv2.checked, spp.checked, svp.checked;
      ListSizes(r, v.fcom2.delta, v.fcomP.delta, es, fs, k, ps, vs, xs, css, polys, keys, polysP, keysP);
      var proof2, proofP := RunBothFinish(sp2, sv2, spp, svp, DegreeFor(k, pred.D2()), DegreeFor(k, pred.DP()), p, v);
      trace := ConvProof(css, proof2, proofP);
      TracedChecks(s, v.fcom2.delta, v.fcomP.delta, chi2, chiP, es, fs, k, ps, vs, xs, polys, keys, polysP, keysP,
                   trace);
    }
    Rewired(p, v);
  }

  /** What the prover sends: the corrections, and the final message of either field. */
  datatype ConvProof<F> = ConvProof(css: seq<seq<bool>>, proof2: seq<F>, proofP: seq<Fp>)

  /** Right corrections, and messages about exactly the checks that they make. */
  ghost predicate ChecksTraced<F>(s: Stock<F>, chi2: F, chiP: Fp, es: seq<EdabitP<F>>, k: nat, ps: seq<HdDabitP<F>>,
                                  xs: seq<F>, t: ConvProof<F>)
  {
    && Corrected(|es|, k, t.css) && AllRight(s.r, es, k, xs, t.css, |es|)
    && t.proof2 == DeliveredProof(s.r, s.basis2, s.s2, s.u2, chi2, BatchPolys(s.r, es, k, ps, t.css, |es|))
    && t.proofP == DeliveredProof(FP, s.basisP, s.sp, s.up, chiP, ValuePolys(es, k, ps, t.css, |es|))
  }

  lemma ListSizes<F>(r: Ring<F>, d2: F, dp: Fp, es: seq<EdabitP<F>>, fs: seq<EdabitV<F>>, k: nat,
                     ps: seq<HdDabitP<F>>, vs: seq<HdDabitV<F>>, xs: seq<F>, css: seq<seq<bool>>,
                     polys: seq<seq<F>>, keys: seq<HdKey<F>>, polysP: seq<seq<Fp>>, keysP: seq<HdKey<Fp>>)
    requires BatchChecked(r, d2, dp, es, fs, k, ps, vs, xs, css, |es|, polys, keys, polysP, keysP)
    requires |ps| == Times(|es|, k)
    ensures |polys| == Times(|es|, k) && |polysP| == |es|
  {
    hide BatchPolys, ValuePolys, BatchKeys, ValueKeys, AllRight;
    BatchCount(r, es, k, ps, css, |es|);
  }

  lemma TracedChecks<F>(s: Stock<F>, d2: F, dp: Fp, chi2: F, chiP: Fp, es: seq<EdabitP<F>>, fs: seq<EdabitV<F>>, k: nat,
                        ps: seq<HdDabitP<F>>, vs: seq<HdDabitV<F>>, xs: seq<F>, polys: seq<seq<F>>,
                        keys: seq<HdKey<F>>, polysP: seq<seq<Fp>>, keysP: seq<HdKey<Fp>>, t: ConvProof<F>)
    requires BatchChecked(s.r, d2, dp, es, fs, k, ps, vs, xs, t.css, |es|, polys, keys, polysP, keysP)
    requires t.proof2 == DeliveredProof(s.r, s.basis2, s.s2, s.u2, chi2, polys)
    requires t.proofP == DeliveredProof(FP, s.basisP, s.sp, s.up, chiP, polysP)
    ensures ChecksTraced(s, chi2, chiP, es, k, ps, xs, t)
  {
    hide BatchPolys, ValuePolys, BatchKeys, ValueKeys, AllRight, DeliveredProof;
  }

  lemma DegreeOf(k: nat, pred: Pred)
    ensures DegreeFor(k, pred.D2()) >= 1 && DegreeFor(k, pred.DP()) >= 1
    ensures k == 0 ==> DegreeFor(k, pred.D2()) == 1
  {
  }

  lemma WiredParts<F(!new)>(p: CheddaProver<F>, v: CheddaVerifier<F>)
    requires Wired(p, v)
    ensures Linked(p.fcom2, v.fcom2) && Linked(p.fcomP, v.fcomP) && p.fcomP.r == FP && IsBinary(p.fcom2.r)
    ensures DrawsBits(p.fcom2)
    ensures p.fcom2.r == v.fcom2.r && IsRing(p.fcom2.r) && v.fcomP.r == FP && IsRing(FP)
    ensures {p.fcom2 as object, v.fcom2} !! {p.fcomP as object, v.fcomP}
  {
  }

  lemma Rewired<F(!new)>(p: CheddaProver<F>, v: CheddaVerifier<F>)
    requires Linked(p.fcom2, v.fcom2) && Linked(p.fcomP, v.fcomP) && p.fcomP.r == FP && IsBinary(p.fcom2.r)
    requires DrawsBits(p.fcom2)
    requires {p.fcom2 as object, v.fcom2} !! {p.fcomP as object, v.fcomP}
    ensures Wired(p, v)
  {
  }

  lemma SomeChecked(n: nat, k: nat)
    requires n > 0
    ensures k > 0 ==> Times(n, k) > 0
  {
    assert Times(n, k) == Times(n - 1, k) + k;
  }

  /** `estimate_voles`. The program counts without signs: for a batch without bits `num_expansions - 1` underflows,
      where this stays an integer. */
  function EstimateVoles(pred: Pred, seedLength: nat, outputLength: nat, degree2: nat, degreeP: nat, n: nat,
                         k: nat): (int, int)
    requires outputLength > seedLength
  {
    if n == 0 then (0, 0)
    else
      var per := outputLength - seedLength;
      var expansions := (n * k + per - 1) / per;
      var (first2, firstP) := VolesV1(seedLength, degreeP);
      (first2 + (expansions - 1) * (seedLength + (pred.D2() - 1) * degree2) + (pred.D2() - 1) * degree2,
       firstP + (expansions - 1) * (seedLength + (pred.DP() - 1) * degreeP) + (pred.DP() - 1) * degreeP)
  }

  /** What the reseedings and the final checks take, with `count` outputs of the expansion used before. */
  function SpentSeeded(pred: Pred, seedLength: nat, outputLength: nat, degree2: nat, degreeP: nat, count: nat, n: nat,
                       k: nat): (nat, nat)
    requires outputLength > seedLength
  {
    var again := Reseeds(outputLength - seedLength, count, Times(n, k));
    (Times(again, ReseedCost(seedLength, pred.D2(), degree2)) + CheckCost(DegreeFor(k, pred.D2()), degree2),
     Times(again, ReseedCost(seedLength, pred.DP(), degreeP)) + CheckCost(DegreeFor(k, pred.DP()), degreeP))
  }

  /** What a whole verification takes, from its parts: the first seed, the reseedings, the final checks. */
  function Spent(pred: Pred, seedLength: nat, outputLength: nat, degree2: nat, degreeP: nat, n: nat, k: nat): (nat, nat)
    requires outputLength > seedLength
  {
    var (first2, firstP) := VolesV1(seedLength, degreeP);
    var (rest2, restP) := SpentSeeded(pred, seedLength, outputLength, degree2, degreeP, 0, n, k);
    (first2 + rest2, firstP + restP)
  }

  /** The estimate is exact for a batch exactly when there are bits at all; without bits the formula takes off a
      reseeding that never happens. */
  lemma EstimateExact(pred: Pred, seedLength: nat, outputLength: nat, degree2: nat, degreeP: nat, n: nat, k: nat)
    requires outputLength > seedLength > 0 && n > 0
    ensures var estimate := EstimateVoles(pred, seedLength, outputLength, degree2, degreeP, n, k);
            estimate == Spent(pred, seedLength, outputLength, degree2, degreeP, n, k) <==> k > 0
  {
    if k > 0 {
      EstimateWithBits(pred, seedLength, outputLength, degree2, degreeP, n, k);
    } else {
      EstimateWithoutBits(pred, seedLength, outputLength, degree2, degreeP, n);
    }
  }

  lemma EstimateWithBits(pred: Pred, seedLength: nat, outputLength: nat, degree2: nat, degreeP: nat, n: nat, k: nat)
    requires outputLength > seedLength && n > 0 && k > 0
    ensures EstimateVoles(pred, seedLength, outputLength, degree2, degreeP, n, k)
         == Spent(pred, seedLength, outputLength, degree2, degreeP, n, k)
  {
    hide Reseeds, Times;
    var per := outputLength - seedLength;
    TimesIsProduct(n, k);
    SomeChecked(n, k);
    ReseedsExact(per, Times(n, k));
    var again := Reseeds(per, 0, Times(n, k));
    TimesIsProduct(again, ReseedCost(seedLength, pred.D2(), degree2));
    TimesIsProduct(again, ReseedCost(seedLength, pred.DP(), degreeP));
    TimesIsProduct(pred.D2() - 1, degree2);
    TimesIsProduct(pred.DP() - 1, degreeP);
  }

  lemma EstimateWithoutBits(pred: Pred, seedLength: nat, outputLength: nat, degree2: nat, degreeP: nat, n: nat)
    requires outputLength > seedLength > 0 && n > 0
    ensures EstimateVoles(pred, seedLength, outputLength, degree2, degreeP, n, 0).0
          < Spent(pred, seedLength, outputLength, degree2, degreeP, n, 0).0
  {
    var per := outputLength - seedLength;
    TimesIsProduct(n, 0);
    assert Times(n, 0) == 0;
    DivModUnique(n * 0 + per - 1, per, 0, per - 1);
    assert Reseeds(per, 0, 0) == 0 && Times(0, ReseedCost(seedLength, pred.D2(), degree2)) == 0;
    assert (0 - 1) * (seedLength + (pred.D2() - 1) * degree2) == 0 - (seedLength + (pred.D2() - 1) * degree2);
  }

  /** A batch that is not empty, once there is a seed. */
  method RunSeeded<F(!new, ==)>(p: CheddaProver<F>, v: CheddaVerifier<F>, inputs: SeedInputs<F>, chis: nat -> (F, Fp),
                                chi2: F, chiP: Fp, es: seq<EdabitP<F>>, fs: seq<EdabitV<F>>, k: nat)
    returns (ok: bool, trace: ConversionTrace<F>)
    requires Ready(p, v) && SeedInputsOk(inputs, p.prg.seedLength) && p.seed2 != [] && es != []
    requires AuthEdabits(p.fcom2.r, v.fcom2.delta, v.fcomP.delta, es, fs, k)
    modifies p, p.prg, p.fcom2, p.fcomP, v, v.prg, v.fcom2, v.fcomP
    ensures Ready(p, v) && p.prg.outputLength > p.prg.seedLength && (ok <==> AllConsistent(p.fcom2.r, es))
    ensures ok ==> ConversionsTraced(p.prg, old(FeedOf(p)), chis, chi2, chiP, es, k, trace)
    ensures ok ==>
              var (n2, np) := SpentSeeded(p.prg.pred, p.prg.seedLength, p.prg.outputLength, |p.fcom2.basis|,
                                          |p.fcomP.basis|, old(p.prg.count), |es|, k);
              UsedBy(p, v) == old(UsedBy(p, v)).Plus(n2, np)
  {
    hide Wired, SeedState, AuthEdabits, HdDabitsOk, AllConsistent, SeedInputsOk, Times, Reseeds, CountAfter,
         ReseedCost, CheckCost, StreamBits, After, Values, Ready, FedDabits, FedAfter, FedProofs, ChecksTraced;
    var ps, vs, seeds;
    ghost var xs, f := [], FeedOf(p);
    ReadyCapacity(p, v);
    ps, vs, xs, seeds := RunGenDabits(p, v, inputs, chis, Times(|es|, k));
    ReadyParts(p, v);
    RoomLeft(p, v);
    var proof;
    ok, proof := RunChecks(p, v, chi2, chiP, es, fs, k, ps, vs, xs);
    trace := ConversionTrace(seeds, proof);
    StillReady(p, v);
  }

  /** What is sent for a batch: the messages of the reseedings, and those of the checks. */
  datatype ConversionTrace<F> = ConversionTrace(seeds: seq<SeedProof<F>>, proof: ConvProof<F>)

  /** The batch is checked with the next daBits of the feed, k for each tuple. */
  ghost predicate ConversionsTraced<F>(g: LocalPrg, f: Feed<F>, chis: nat -> (F, Fp), chi2: F, chiP: Fp,
                                       es: seq<EdabitP<F>>, k: nat, t: ConversionTrace<F>)
    requires g.outputLength > g.seedLength
  {
    var n := Times(|es|, k);
    && t.seeds == FedProofs(g, f, chis, n)
    && ChecksTraced(FedAfter(g, f, n).stock, chi2, chiP, es, k, FedDabits(g, f, n),
                    StreamBits(g, f.stock.r, Stream(Values(f.seed2), f.count), n), t.proof)
  }

  lemma RoomLeft<F(!new)>(p: CheddaProver<F>, v: CheddaVerifier<F>)
    requires Ready(p, v)
    ensures p.prg.count + p.prg.seedLength <= p.prg.outputLength
  {
  }

  /** `verify_conversions`, from any reachable state: an honest run is accepted exactly when every tuple is consistent
      (given a first seed, if one is needed, whose masks fit), from a fresh start it takes exactly what was estimated,
      and an empty batch takes nothing. */
  method RunVerifyConversions<F(!new, ==)>(p: CheddaProver<F>, v: CheddaVerifier<F>, inputs: SeedInputs<F>,
                                           chis: nat -> (F, Fp), chi2: F, chiP: Fp, es: seq<EdabitP<F>>,
                                           fs: seq<EdabitV<F>>, k: nat)
    returns (ok: bool, first: Option<DabitTrace<F>>, trace: ConversionTrace<F>)
    requires Ready(p, v) && SeedInputsOk(inputs, p.prg.seedLength)
    requires AuthEdabits(p.fcom2.r, v.fcom2.delta, v.fcomP.delta, es, fs, k)
    modifies p, p.prg, p.fcom2, p.fcomP, v, v.prg, v.fcom2, v.fcomP
    ensures Ready(p, v)
    ensures es == [] ==> UsedBy(p, v) == old(UsedBy(p, v)).Plus(0, 0)
    ensures ok ==> AllConsistent(p.fcom2.r, es)
    ensures ok && es != [] ==>
      && p.prg.outputLength > p.prg.seedLength
      && ConversionsTraced(p.prg, SeededFeed(old(FeedOf(p)), p.prg.seedLength), chis, chi2, chiP, es, k, trace)
    ensures ok && es != [] ==>
      if old(p.seed2) != [] then first == None
      else
        && first.Some?
        && DabitsTraced(old(StockOf(p.fcom2, p.fcomP)), inputs.chi, p.prg.seedLength, inputs.sampled, inputs.es,
                        first.value)
    ensures es == [] || old(p.seed2) != [] || SafeSamples(p.prg.seedLength, inputs.sampled) ==>
      (ok <==> AllConsistent(p.fcom2.r, es))
    ensures ok && es != [] && old(p.seed2) == [] && old(p.prg.count) == 0 && CheckParamsV1(p.prg.seedLength) ==>
              p.prg.outputLength > p.prg.seedLength
              && var (n2, np) := Spent(p.prg.pred, p.prg.seedLength, p.prg.outputLength, |p.fcom2.basis|,
                                       |p.fcomP.basis|, |es|, k);
                 UsedBy(p, v) == old(UsedBy(p, v)).Plus(n2, np)
  {
    hide AuthEdabits, AllConsistent, SeedInputsOk, CheckParamsV1, SafeSamples, Times, Reseeds, VolesV1, ReseedCost,
         CheckCost, Values, HeldBack, Ready, ConversionsTraced, DabitsTraced, FirstFeed, NextFeed, NextProof;
    first, trace := None, ConversionTrace([], ConvProof([], [], []));
    if es == [] {
      NoneInconsistent(p.fcom2.r, es);
      return true, first, trace;
    }
    ok := true;
    if p.seed2 == [] {
      var (c2, cp) := chis(0);
      var seed;
      ok, seed := RunGenSeed(p, v, inputs, c2, cp);
      if !ok {
        return;
      }
      first := Some(seed.dabits);
    }
    ok, trace := RunSeeded(p, v, inputs, chis, chi2, chiP, es, fs, k);
  }

  /** A feed with a first seed, drawn now if there is none. */
  ghost function SeededFeed<F>(f: Feed<F>, n: nat): Feed<F> {
    if f.seed2 == [] then FirstFeed(f, n) else f
  }

  lemma NoneInconsistent<F>(r: Ring<F>, es: seq<EdabitP<F>>)
    requires es == []
    ensures AllConsistent(r, es)
  {
  }
}
