/** Conversions proved with the outputs of the generator: what the checks decide, the reseeding state machine, and
    whole verifications run by both parties. */
module CheddaConv {
  import opened Arith
  import opened Rings
  import opened PrimeField
  import opened Bits
  import opened Polynomials
  import opened Homcom
  import opened Fdabit
  import opened FdabitRun
  import opened EdabitConversionRun
  import opened HdQuicksilver
  import opened HdMacs
  import opened HdValues
  import opened CheddaPrg
  import opened CheddaBits
  import opened CheddaChecks

  // ---- what the checks decide, for any corrections ----

  /** The bit that a correction makes of a daBit. */
  function Flipped(c: bool, d: Fp): Fp {
    if c then FpMul(FpNeg(1), FP.Sub(d, 1)) else d
  }

  lemma FlippedBit(c: bool, d: Fp)
    requires d <= 1
    ensures Flipped(c, d) == if c then 1 - d else d
  {
    ToFpSmall(0);
    ToFpSmall(1);
    Canonical(d);
    NegHom(1);
    SubHom(d, 1);
    MulHom(-1, d - 1);
    if c {
      ToFpSmall(1 - d);
    }
  }

  /** What is checked in the binary field for one bit. */
  function Difference<F>(r: Ring<F>, d: F, b: F, c: bool): F {
    r.add(r.add(d, b), if c then r.one else r.zero)
  }

  /** It is zero exactly when the correction is the exclusive or of the bit and the daBit. */
  lemma DifferenceExact<F(!new)>(r: Ring<F>, d: F, b: F, c: bool)
    requires IsBinary(r) && IsBit(r, d) && IsBit(r, b)
    ensures Difference(r, d, b, c) == r.zero <==> (c <==> d != b)
  {
    BinaryTables(r);
    hide IsRing;
  }

  /** What is checked in the prime field for one tuple: value - sum of 2^i * (corrected daBit i). */
  function Remainder(value: Fp, ds: seq<Fp>, cs: seq<bool>): Fp
    requires |ds| == |cs|
  {
    if ds == [] then value
    else var n := |ds| - 1; FP.Sub(Remainder(value, ds[..n], cs[..n]), FpMul(ToFp(Pow2(n)), Flipped(cs[n], ds[n])))
  }

  ghost predicate RightCorrections<F>(ds: seq<F>, bs: seq<F>, cs: seq<bool>) {
    |ds| == |bs| == |cs| && forall i :: 0 <= i < |cs| ==> (cs[i] <==> ds[i] != bs[i])
  }

  lemma {:induction false} RemainderIs<F(!new)>(r: Ring<F>, value: Fp, xs: seq<F>, ds: seq<Fp>, bs: seq<F>,
                                                cs: seq<bool>)
    requires r.zero != r.one && SameBits(r, xs, ds) && AreBits(r, bs) && RightCorrections(xs, bs, cs)
    ensures Remainder(value, ds, cs) == Discrepancy(r, bs, value)
  {
    hide ToFp, Flipped, BitsValue;
    if bs == [] {
      assert BitsValue(r, bs) == 0 by {
        NoValue(r);
      }
      Canonical(value);
      SubHom(value, 0);
    } else {
      var n := |bs| - 1;
      RemainderIs(r, value, xs[..n], ds[..n], bs[..n], cs[..n]);
      FlippedBit(cs[n], ds[n]);
      var b := BitNat(r, bs[n]);
      assert Flipped(cs[n], ds[n]) == b;
      OneLess(r, value, bs, b);
    }
  }

  lemma NoValue<F>(r: Ring<F>)
    ensures BitsValue<F>(r, []) == 0
  {
  }

  lemma OneLess<F(!new)>(r: Ring<F>, value: Fp, bs: seq<F>, b: Fp)
    requires bs != [] && b == BitNat(r, bs[|bs| - 1])
    ensures var n := |bs| - 1;
            FP.Sub(Discrepancy(r, bs[..n], value), FpMul(ToFp(Pow2(n)), b)) == Discrepancy(r, bs, value)
  {
    var n := |bs| - 1;
    var low, w := BitsValue(r, bs[..n]), BitWeight(r, bs[n], n);
    Canonical(value);
    Canonical(b);
    MulHom(Pow2(n), b);
    assert Pow2(n) * b == w;
    SubHom(value, low);
    SubHom(value - low, w);
    SubHom(value, low + w);
  }

  datatype ClearTuple<F> = ClearTuple(bits: seq<F>, value: Fp)

  /** All values that the prover claims to be zero are zero. */
  ghost predicate AllChecksZero<F>(r: Ring<F>, ts: seq<ClearTuple<F>>, xs: seq<seq<F>>, ds: seq<seq<Fp>>,
                                   cs: seq<seq<bool>>)
    requires |ts| == |xs| == |ds| == |cs| && forall t :: 0 <= t < |ts| ==> |ts[t].bits| == |xs[t]| == |ds[t]| == |cs[t]|
  {
    forall t :: 0 <= t < |ts| ==>
      && (forall i :: 0 <= i < |cs[t]| ==> Difference(r, xs[t][i], ts[t].bits[i], cs[t][i]) == r.zero)
      && Remainder(ts[t].value, ds[t], cs[t]) == 0
  }

  /** Given daBits that agree across the fields, and whatever corrections were sent: all checked polynomials have
      clear value zero exactly when every correction is right and every tuple's value is that of its bits. */
  lemma ConversionExact<F(!new)>(r: Ring<F>, ts: seq<ClearTuple<F>>, xs: seq<seq<F>>, ds: seq<seq<Fp>>,
                                 cs: seq<seq<bool>>)
    requires IsBinary(r) && |ts| == |xs| == |ds| == |cs|
    requires forall t :: 0 <= t < |ts| ==>
      |ts[t].bits| == |xs[t]| == |ds[t]| == |cs[t]| && SameBits(r, xs[t], ds[t]) && AreBits(r, ts[t].bits)
    ensures AllChecksZero(r, ts, xs, ds, cs)
       <==> forall t :: 0 <= t < |ts| ==>
           RightCorrections(xs[t], ts[t].bits, cs[t]) && ts[t].value == ToFp(BitsValue(r, ts[t].bits))
  {
    assert r.zero != r.one;
    hide IsBinary, Difference, Remainder, BitsValue;
    forall t | 0 <= t < |ts|
      ensures (forall i :: 0 <= i < |cs[t]| ==> Difference(r, xs[t][i], ts[t].bits[i], cs[t][i]) == r.zero)
         <==> RightCorrections(xs[t], ts[t].bits, cs[t])
      ensures RightCorrections(xs[t], ts[t].bits, cs[t]) ==>
        (Remainder(ts[t].value, ds[t], cs[t]) == 0 <==> ts[t].value == ToFp(BitsValue(r, ts[t].bits)))
    {
      forall i | 0 <= i < |cs[t]|
        ensures Difference(r, xs[t][i], ts[t].bits[i], cs[t][i]) == r.zero
           <==> (cs[t][i] <==> xs[t][i] != ts[t].bits[i])
      {
        DifferenceExact(r, xs[t][i], ts[t].bits[i], cs[t][i]);
      }
      if RightCorrections(xs[t], ts[t].bits, cs[t]) {
        RemainderIs(r, ts[t].value, xs[t], ds[t], ts[t].bits, cs[t]);
        DiscrepancyZero(r, ts[t].bits, ts[t].value);
      }
    }
  }

  lemma DiscrepancyZero<F(!new)>(r: Ring<F>, bits: seq<F>, value: Fp)
    ensures Discrepancy(r, bits, value) == 0 <==> value == ToFp(BitsValue(r, bits))
  {
    FpIsRing();
    SubIsZero(FP, value, ToFp(BitsValue(r, bits)));
  }

  // ---- the reseeding state machine ----

  /** Each expansion gives `per` bits; the rest of the output is held back for the next seed. */
  function NextCount(per: nat, count: nat): nat {
    if count == per then 1 else count + 1
  }

  function CountAfter(per: nat, count: nat, n: nat): nat {
    if n == 0 then count else NextCount(per, CountAfter(per, count, n - 1))
  }

  /** How many reseedings the next bit takes. */
  function Again(per: nat, count: nat): nat {
    if count == per then 1 else 0
  }

  function Reseeds(per: nat, count: nat, n: nat): nat {
    if n == 0 then 0 else Reseeds(per, count, n - 1) + Again(per, CountAfter(per, count, n - 1))
  }

  /** From a fresh generator, n bits take exactly ceil(n / per) expansions: one seed and the rest reseedings. */
  lemma {:induction false} ReseedsExact(per: nat, n: nat)
    requires per > 0 && n > 0
    ensures n == Times(Reseeds(per, 0, n), per) + CountAfter(per, 0, n) && 1 <= CountAfter(per, 0, n) <= per
    ensures Reseeds(per, 0, n) == (n + per - 1) / per - 1
  {
    if n == 1 {
      assert CountAfter(per, 0, 0) == 0 && Reseeds(per, 0, 0) == 0;
    } else {
      ReseedsExact(per, n - 1);
      var q := Reseeds(per, 0, n - 1);
      assert Times(q + 1, per) == Times(q, per) + per;
    }
    TimesIsProduct(Reseeds(per, 0, n), per);
    RoundedUp(n, per, Reseeds(per, 0, n), CountAfter(per, 0, n));
  }

  lemma RoundedUp(n: nat, per: nat, q: nat, c: nat)
    requires n == q * per + c && 1 <= c <= per
    ensures (n + per - 1) / per == q + 1
  {
    assert (q + 1) * per == q * per + per;
    DivModUnique(n + per - 1, per, q + 1, c - 1);
  }

  // ---- seeds ----

  /** The state of the two seeds: none, one for the prime field only, or the same bits in both fields. */
  ghost predicate SeedState<F>(r: Ring<F>, d2: F, dp: Fp, len: nat, s2: seq<MacProver<F>>, k2: seq<MacVerifier<F>>,
                               sp: seq<MacProver<Fp>>, kp: seq<MacVerifier<Fp>>) {
    && AuthAll(r, d2, s2, k2) && AuthAll(FP, dp, sp, kp)
    && (sp == [] || |sp| == len) && (forall i :: 0 <= i < |sp| ==> sp[i].x <= 1)
    && (s2 == [] || (|s2| == len && |sp| == len && SameBits(r, Values(s2), Values(sp))))
  }

  ghost predicate Twins(g: LocalPrg, h: LocalPrg)
    reads g, h
  {
    SameGenerators(g, h) && g.Valid() && h.Valid() && g.count == h.count
  }

  ghost predicate SameGenerators(g: LocalPrg, h: LocalPrg) {
    && g != h && g.pred == h.pred && g.seedLength == h.seedLength > 0
    && g.outputLength == h.outputLength && g.sigma == h.sigma
  }

  datatype HdDabitP<F> = HdDabitP(c2: seq<F>, cp: seq<Fp>)
  datatype HdDabitV<F> = HdDabitV(k2: HdKey<F>, kp: HdKey<Fp>)

  /** The same bit in both fields, at the full degrees. */
  ghost predicate HdDabitOk<F>(pred: Pred, r: Ring<F>, d2: F, dp: Fp, a: HdDabitP<F>, b: HdDabitV<F>, x: F) {
    IsBit(r, x) && Hd(r, d2, a.c2, b.k2, x, pred.D2()) && Hd(FP, dp, a.cp, b.kp, BitNat(r, x), pred.DP())
  }

  ghost predicate HdDabitsOk<F>(pred: Pred, r: Ring<F>, d2: F, dp: Fp, ps: seq<HdDabitP<F>>, vs: seq<HdDabitV<F>>,
                                xs: seq<F>) {
    |ps| == |vs| == |xs| && forall i :: 0 <= i < |ps| ==> HdDabitOk(pred, r, d2, dp, ps[i], vs[i], xs[i])
  }

  // ---- the stream of bits, as a reference ----

  /** All that the next bits depend on: the bits of the seed, and how far its expansion has been used. */
  datatype Stream<F> = Stream(seed: seq<F>, count: nat)

  ghost function Picks<F>(seed: seq<F>, sigma: seq<nat>): (xs: seq<F>)
    requires SigmaOk(sigma, |sigma|, |seed|)
    ensures |xs| == |sigma|
  {
    seq(|sigma|, i requires 0 <= i < |sigma| => seed[sigma[i]])
  }

  /** Output number i of a seed. */
  ghost function Output<F>(g: LocalPrg, r: Ring<F>, seed: seq<F>, i: nat): F {
    var s := g.sigma(i);
    if SigmaOk(s, g.pred.Loc(), |seed|) then OutValue(g.pred, r, Picks(seed, s)) else r.zero
  }

  ghost function Outputs<F>(g: LocalPrg, r: Ring<F>, seed: seq<F>, from: nat, n: nat): seq<F> {
    if n == 0 then [] else Outputs(g, r, seed, from, n - 1) + [Output(g, r, seed, from + n - 1)]
  }

  /** The next seed: as many outputs as a seed has bits. */
  ghost function HeldBack<F>(g: LocalPrg, r: Ring<F>, seed: seq<F>, from: nat): seq<F> {
    Outputs(g, r, seed, from, g.seedLength)
  }

  /** Before a bit is taken, an expansion that is used up but for the outputs held back is replaced. */
  ghost function Reseeded<F>(g: LocalPrg, r: Ring<F>, s: Stream<F>): Stream<F>
    requires g.outputLength > g.seedLength
  {
    if s.count == Capacity(g) then Stream(HeldBack(g, r, s.seed, s.count), 0) else s
  }

  ghost function Drawn<F>(g: LocalPrg, r: Ring<F>, s: Stream<F>): F
    requires g.outputLength > g.seedLength
  {
    var t := Reseeded(g, r, s);
    Output(g, r, t.seed, t.count)
  }

  ghost function Advanced<F>(g: LocalPrg, r: Ring<F>, s: Stream<F>): Stream<F>
    requires g.outputLength > g.seedLength
  {
    var t := Reseeded(g, r, s);
    Stream(t.seed, t.count + 1)
  }

  ghost function After<F>(g: LocalPrg, r: Ring<F>, s: Stream<F>, n: nat): Stream<F>
    requires g.outputLength > g.seedLength
  {
    if n == 0 then s else Advanced(g, r, After(g, r, s, n - 1))
  }

  /** The first n bits of the stream. */
  ghost function StreamBits<F>(g: LocalPrg, r: Ring<F>, s: Stream<F>, n: nat): (xs: seq<F>)
    requires g.outputLength > g.seedLength
    ensures |xs| == n
  {
    if n == 0 then [] else StreamBits(g, r, s, n - 1) + [Drawn(g, r, After(g, r, s, n - 1))]
  }

  lemma OutputIs<F>(g: LocalPrg, r: Ring<F>, s2: seq<MacProver<F>>, i: nat)
    requires SigmaOk(g.sigma(i), g.pred.Loc(), |s2|)
    ensures Output(g, r, Values(s2), i) == OutValue(g.pred, r, PickedValues(s2, g.sigma(i)))
  {
    hide OutValue;
    var s := g.sigma(i);
    assert |Values(s2)| == |s2|;
    forall j | 0 <= j < |s| ensures Picks(Values(s2), s)[j] == PickedValues(s2, s)[j] {
      assert Values(s2)[s[j]] == s2[s[j]].x;
    }
    assert Picks(Values(s2), s) == PickedValues(s2, s);
  }

  // ---- taking outputs ----

  /** Output number i as the prover expands it from its seeds, in both fields. */
  ghost function ExpandedDabit<F>(g: LocalPrg, r: Ring<F>, s2: seq<MacProver<F>>, sp: seq<MacProver<Fp>>,
                                  i: nat): HdDabitP<F>
  {
    var s := g.sigma(i);
    if SigmaOk(s, g.pred.Loc(), |s2|) && |sp| == |s2|
    then HdDabitP(OutP2(g.pred, r, PickedP(r, s2, s)), OutPp(g.pred, PickedP(FP, sp, s)))
    else HdDabitP([], [])
  }

  lemma ExpandedIs<F>(g: LocalPrg, r: Ring<F>, s2: seq<MacProver<F>>, sp: seq<MacProver<Fp>>, i: nat)
    requires SigmaOk(g.sigma(i), g.pred.Loc(), |s2|) && |sp| == |s2|
    ensures ExpandedDabit(g, r, s2, sp, i)
         == HdDabitP(OutP2(g.pred, r, PickedP(r, s2, g.sigma(i))), OutPp(g.pred, PickedP(FP, sp, g.sigma(i))))
  {
    hide OutP2, OutPp, PickedP;
  }

  ghost function ExpandedDabits<F>(g: LocalPrg, r: Ring<F>, s2: seq<MacProver<F>>, sp: seq<MacProver<Fp>>, from: nat,
                                   n: nat): (ps: seq<HdDabitP<F>>)
    ensures |ps| == n
  {
    if n == 0 then []
    else ExpandedDabits(g, r, s2, sp, from, n - 1) + [ExpandedDabit(g, r, s2, sp, from + n - 1)]
  }

  /** Both parties take the next output; it never runs dry before the end of the output. */
  method RunNext<F(!new, ==)>(g: LocalPrg, h: LocalPrg, r: Ring<F>, d2: F, dp: Fp, s2: seq<MacProver<F>>,
                              k2: seq<MacVerifier<F>>, sp: seq<MacProver<Fp>>, kp: seq<MacVerifier<Fp>>)
    returns (a: HdDabitP<F>, b: HdDabitV<F>, ghost x: F)
    requires Twins(g, h) && IsBinary(r) && SeedState(r, d2, dp, g.seedLength, s2, k2, sp, kp) && s2 != []
    requires g.count < g.outputLength
    modifies g, h
    ensures Twins(g, h) && g.count == old(g.count) + 1 && HdDabitOk(g.pred, r, d2, dp, a, b, x)
    ensures x == Output(g, r, Values(s2), old(g.count)) && a == ExpandedDabit(g, r, s2, sp, old(g.count))
  {
    x := NextOutput(g, r, d2, dp, s2, k2, sp, kp);
    StillTwins(g, h);
    assert IsRing(r);
    hide Twins, LocalPrg.Valid, IsRing, IsBinary, SeedState, OutP2, OutV2, OutPp, OutVp, HdDabitOk, Output, Values,
         PickedP, PickedV, SigmaOk;
    var next := g.NextProver(r, s2, sp);
    var nextKey := h.NextVerifier(r, d2, dp, k2, kp);
    a, b := HdDabitP(next.value.0, next.value.1), HdDabitV(nextKey.value.0, nextKey.value.1);
    ExpandedIs(g, r, s2, sp, old(g.count));
    TwinsAgain(g, h);
  }

  /** What the two expansions of the next output are, before they are taken. */
  lemma NextOutput<F(!new)>(g: LocalPrg, r: Ring<F>, d2: F, dp: Fp, s2: seq<MacProver<F>>, k2: seq<MacVerifier<F>>,
                            sp: seq<MacProver<Fp>>, kp: seq<MacVerifier<Fp>>) returns (x: F)
    requires g.Valid() && IsBinary(r) && SeedState(r, d2, dp, g.seedLength, s2, k2, sp, kp) && s2 != []
    ensures |s2| == |k2| == |sp| == |kp| == g.seedLength && SigmaOk(g.sigma(g.count), g.pred.Loc(), g.seedLength)
    ensures var s := g.sigma(g.count);
            HdDabitOk(g.pred, r, d2, dp,
                      HdDabitP(OutP2(g.pred, r, PickedP(r, s2, s)), OutPp(g.pred, PickedP(FP, sp, s))),
                      HdDabitV(OutV2(g.pred, r, d2, PickedV(r, k2, s)), OutVp(g.pred, dp, PickedV(FP, kp, s))), x)
    ensures x == Output(g, r, Values(s2), g.count)
  {
    var s := g.sigma(g.count);
    OutputsAgree(g.pred, r, d2, dp, s, s2, k2, sp, kp);
    OutputIs(g, r, s2, g.count);
    hide OutP2, OutV2, OutPp, OutVp, OutValue, Hd, IsBit, BitNat, IsRing, IsBinary, AuthAll, SameBits, PickedP,
         PickedV, PickedValues;
    x := OutValue(g.pred, r, PickedValues(s2, s));
  }

  /** Takes n outputs, one after the other. */
  method RunTake<F(!new, ==)>(g: LocalPrg, h: LocalPrg, r: Ring<F>, d2: F, dp: Fp, s2: seq<MacProver<F>>,
                              k2: seq<MacVerifier<F>>, sp: seq<MacProver<Fp>>, kp: seq<MacVerifier<Fp>>, n: nat)
    returns (ps: seq<HdDabitP<F>>, vs: seq<HdDabitV<F>>, ghost xs: seq<F>)
    requires Twins(g, h) && IsBinary(r) && SeedState(r, d2, dp, g.seedLength, s2, k2, sp, kp) && s2 != []
    requires g.count + n <= g.outputLength
    modifies g, h
    ensures Twins(g, h) && g.count == old(g.count) + n && |ps| == n && HdDabitsOk(g.pred, r, d2, dp, ps, vs, xs)
    ensures xs == Outputs(g, r, Values(s2), old(g.count), n)
    ensures ps == ExpandedDabits(g, r, s2, sp, old(g.count), n)
  {
    hide IsBinary, SeedState, HdDabitOk, Twins, Output, Values, ExpandedDabit;
    ps, vs, xs := [], [], [];
    for i := 0 to n
      invariant Twins(g, h) && g.count == old(g.count) + i && |ps| == i && HdDabitsOk(g.pred, r, d2, dp, ps, vs, xs)
      invariant xs == Outputs(g, r, Values(s2), old(g.count), i)
      invariant ps == ExpandedDabits(g, r, s2, sp, old(g.count), i)
    {
      var a, b;
      ghost var x;
      a, b, x := RunNext(g, h, r, d2, dp, s2, k2, sp, kp);
      ps, vs, xs := ps + [a], vs + [b], xs + [x];
    }
  }

  /** A value of high degree and a committed one, claimed to be equal. */
  method RunEqual<F(!new, ==)>(sp: QSStateProver<F>, sv: QSStateVerifier<F>, ghost d: nat, c: seq<F>, k: HdKey<F>,
                               ghost x: F, m: MacProver<F>, l: MacVerifier<F>)
    requires QsOk(sp, sv, d) && Hd(sp.r, sv.delta, c, k, x, d) && Auth(sp.r, sv.delta, m, l) && m.x == x
    modifies sp, sp.state, sv, sv.state
    ensures QsOk(sp, sv, d) && sp.state == old(sp.state) && sv.state == old(sv.state)
    ensures sp.checked == old(sp.checked) + [HdSub(sp.r, c, FromMac(sp.r, m))]
    ensures sv.checked == old(sv.checked) + [KeySub(sp.r, sv.delta, k, KeyFromMac(sp.r, l))]
  {
    hide Hd, IsRing, HdSub, KeySub, Auth, QsState, QsKey, Eval, QsOk, FromMac, KeyFromMac;
    assert IsRing(sp.r) && sp.r == sv.r by {
      QsRing(sp, sv, d);
    }
    EqualHd(sp.r, sv.delta, c, k, x, d, m, l);
    var a := new HDMacProver.Load(sp.r, c);
    var b := new HDMacProver.From(sp.r, m);
    a.SubAssign(b);
    var u := new HDMacVerifier.Load(sv.r, k);
    var w := new HDMacVerifier.From(sv.r, l);
    u.SubAssign(sv.delta, w);
    RunCheckZero(sp, sv, d, a, u);
  }

  lemma EqualHd<F(!new)>(r: Ring<F>, delta: F, c: seq<F>, k: HdKey<F>, x: F, d: nat, m: MacProver<F>,
                         l: MacVerifier<F>)
    requires IsRing(r) && Hd(r, delta, c, k, x, d) && Auth(r, delta, m, l) && m.x == x
    ensures |c| >= 2 && k.degree >= 1
    ensures Hd(r, delta, HdSub(r, c, FromMac(r, m)), KeySub(r, delta, k, KeyFromMac(r, l)), r.zero, d)
  {
    hide Eval;
    FromMacAuth(r, delta, m, l);
    AddNeg(r, x);
    hide IsRing, HdSub, KeySub, Auth;
    SubHd(r, delta, c, k, x, d, FromMac(r, m), KeyFromMac(r, l), x, 1);
  }

  lemma QsRing<F(!new)>(sp: QSStateProver<F>, sv: QSStateVerifier<F>, d: nat)
    requires QsOk(sp, sv, d)
    ensures IsRing(sp.r) && sp.r == sv.r
  {
  }

  // ---- the parties ----

  class CheddaProver<F(!new, ==)> {
    const prg: LocalPrg
    const fcom2: FComProver<F>
    const fcomP: FComProver<Fp>
    var seed2: seq<MacProver<F>>
    var seedP: seq<MacProver<Fp>>

    constructor (prg: LocalPrg, fcom2: FComProver<F>, fcomP: FComProver<Fp>)
      ensures this.prg == prg && this.fcom2 == fcom2 && this.fcomP == fcomP && seed2 == [] && seedP == []
    {
      this.prg, this.fcom2, this.fcomP, seed2, seedP := prg, fcom2, fcomP, [], [];
    }

    method SetSeeds(s2: seq<MacProver<F>>, sp: seq<MacProver<Fp>>)
      modifies this
      ensures seed2 == s2 && seedP == sp
    {
      seed2, seedP := s2, sp;
    }
  }

  class CheddaVerifier<F(!new, ==)> {
    const prg: LocalPrg
    const fcom2: FComVerifier<F>
    const fcomP: FComVerifier<Fp>
    var seed2: seq<MacVerifier<F>>
    var seedP: seq<MacVerifier<Fp>>

    constructor (prg: LocalPrg, fcom2: FComVerifier<F>, fcomP: FComVerifier<Fp>)
      ensures this.prg == prg && this.fcom2 == fcom2 && this.fcomP == fcomP && seed2 == [] && seedP == []
    {
      this.prg, this.fcom2, this.fcomP, seed2, seedP := prg, fcom2, fcomP, [], [];
    }

    method SetSeeds(s2: seq<MacVerifier<F>>, sp: seq<MacVerifier<Fp>>)
      modifies this
      ensures seed2 == s2 && seedP == sp
    {
      seed2, seedP := s2, sp;
    }
  }

  ghost predicate Wired<F(!new)>(p: CheddaProver<F>, v: CheddaVerifier<F>)
    reads p.fcom2, p.fcomP, v.fcom2, v.fcomP
  {
    && Linked(p.fcom2, v.fcom2) && Linked(p.fcomP, v.fcomP) && p.fcomP.r == FP && IsBinary(p.fcom2.r)
    && DrawsBits(p.fcom2)
    && {p.fcom2 as object, v.fcom2} !! {p.fcomP as object, v.fcomP}
  }

  /** Both parties in step, with room for one more seed held back: what every reachable state keeps. */
  ghost predicate Ready<F(!new)>(p: CheddaProver<F>, v: CheddaVerifier<F>)
    reads p, p.prg, p.fcom2, p.fcomP, v, v.prg, v.fcom2, v.fcomP
  {
    && Wired(p, v) && Twins(p.prg, v.prg) && p.prg.count <= Capacity(p.prg)
    && SeedState(p.fcom2.r, v.fcom2.delta, v.fcomP.delta, p.prg.seedLength, p.seed2, v.seed2, p.seedP, v.seedP)
  }

  /** How many random values of either field the two parties have taken. */
  datatype Used = Used(p2: nat, v2: nat, pp: nat, vp: nat)
  {
    function Plus(n2: nat, np: nat): Used {
      Used(p2 + n2, v2 + n2, pp + np, vp + np)
    }
  }

  ghost function UsedBy<F(!new)>(p: CheddaProver<F>, v: CheddaVerifier<F>): Used
    reads p.fcom2, p.fcomP, v.fcom2, v.fcomP
  {
    Used(p.fcom2.used, v.fcom2.used, p.fcomP.used, v.fcomP.used)
  }

  lemma UsedIs<F(!new)>(p: CheddaProver<F>, v: CheddaVerifier<F>, u: Used, n2: nat, np: nat)
    requires p.fcom2.used == u.p2 + n2 && v.fcom2.used == u.v2 + n2
    requires p.fcomP.used == u.pp + np && v.fcomP.used == u.vp + np
    ensures UsedBy(p, v) == u.Plus(n2, np)
  {
  }

  lemma UsedParts<F(!new)>(p: CheddaProver<F>, v: CheddaVerifier<F>)
    ensures UsedBy(p, v) == Used(p.fcom2.used, v.fcom2.used, p.fcomP.used, v.fcomP.used)
  {
  }

  /** How many bits one expansion gives. */
  function Capacity(g: LocalPrg): nat
    requires g.outputLength > g.seedLength
  {
    g.outputLength - g.seedLength
  }

  function CheckCost(degree: nat, basis: nat): nat
    requires degree > 0
  {
    Times(degree - 1, basis)
  }

  /** The values that the prover commits to as the next seed. */
  method SeedValues<F(!new, ==)>(r: Ring<F>, ps: seq<HdDabitP<F>>, ghost pred: Pred, ghost d2: F, ghost dp: Fp,
                                 ghost vs: seq<HdDabitV<F>>, ghost xs: seq<F>)
    returns (new2: seq<F>, newP: seq<Fp>)
    requires IsBinary(r) && HdDabitsOk(pred, r, d2, dp, ps, vs, xs)
    ensures new2 == xs && SameBits(r, new2, newP)
  {
    hide Eval;
    assert r.zero != r.one;
    hide IsBinary, IsRing;
    new2, newP := [], [];
    for i := 0 to |ps|
      invariant new2 == xs[..i] && SameBits(r, new2, newP)
    {
      assert HdDabitOk(pred, r, d2, dp, ps[i], vs[i], xs[i]);
      var c := ps[i].c2;
      if c[|c| - 1] == r.zero {
        new2, newP := new2 + [r.zero], newP + [0];
      } else {
        new2, newP := new2 + [r.one], newP + [1];
      }
    }
  }

  function EqualPolys<F>(r: Ring<F>, cs: seq<seq<F>>, ms: seq<MacProver<F>>): (ps: seq<seq<F>>)
    requires |cs| == |ms|
    ensures |ps| == |cs|
  {
    seq(|cs|, i requires 0 <= i < |cs| => HdSub(r, cs[i], FromMac(r, ms[i])))
  }

  function EqualKeys<F>(r: Ring<F>, delta: F, ks: seq<HdKey<F>>, ls: seq<MacVerifier<F>>): (qs: seq<HdKey<F>>)
    requires |ks| == |ls|
    ensures |qs| == |ks|
  {
    seq(|ks|, i requires 0 <= i < |ks| => KeySub(r, delta, ks[i], KeyFromMac(r, ls[i])))
  }

  /** A list of high-degree values against committed ones. */
  method RunEqualEach<F(!new, ==)>(sp: QSStateProver<F>, sv: QSStateVerifier<F>, ghost d: nat, cs: seq<seq<F>>,
                                   ks: seq<HdKey<F>>, ghost xs: seq<F>, ms: seq<MacProver<F>>, ls: seq<MacVerifier<F>>)
    requires QsOk(sp, sv, d) && |cs| == |ks| == |xs| == |ms| && AuthAll(sp.r, sv.delta, ms, ls) && Values(ms) == xs
    requires sp.checked == [] && sv.checked == []
    requires forall i :: 0 <= i < |cs| ==> Hd(sp.r, sv.delta, cs[i], ks[i], xs[i], d)
    modifies sp, sp.state, sv, sv.state
    ensures QsOk(sp, sv, d) && |ls| == |ms|
    ensures sp.checked == EqualPolys(sp.r, cs, ms) && sv.checked == EqualKeys(sp.r, sv.delta, ks, ls)
  {
    hide Hd, QsOk, Auth, HdSub, KeySub, FromMac, KeyFromMac;
    ghost var stateP, stateV := sp.state, sv.state;
    for i := 0 to |cs|
      invariant QsOk(sp, sv, d) && sp.state == stateP && sv.state == stateV
      invariant sp.checked == EqualPolys(sp.r, cs[..i], ms[..i])
      invariant sv.checked == EqualKeys(sp.r, sv.delta, ks[..i], ls[..i])
    {
      assert Values(ms)[i] == ms[i].x;
      RunEqual(sp, sv, d, cs[i], ks[i], xs[i], ms[i], ls[i]);
    }
    assert cs[..|cs|] == cs && ms[..|cs|] == ms && ks[..|cs|] == ks && ls[..|cs|] == ls;
  }

  /** All checks of a list of high-degree values against committed ones. */
  method RunEqualAll<F(!new, ==)>(p: FComProver<F>, v: FComVerifier<F>, chi: F, ghost d: nat, cs: seq<seq<F>>,
                                  ks: seq<HdKey<F>>, ghost xs: seq<F>, ms: seq<MacProver<F>>,
                                  ls: seq<MacVerifier<F>>) returns (ok: bool, proof: seq<F>)
    requires Linked(p, v) && d >= 1 && |cs| == |ks| == |xs| == |ms| > 0 && AuthAll(p.r, v.delta, ms, ls)
    requires Values(ms) == xs
    requires forall i :: 0 <= i < |cs| ==> Hd(p.r, v.delta, cs[i], ks[i], xs[i], d)
    modifies p, v
    ensures ok && Linked(p, v)
    ensures proof == DeliveredProof(p.r, p.basis, p.supply, old(p.used), chi, EqualPolys(p.r, cs, ms))
    ensures p.used == old(p.used) + CheckCost(d, |p.basis|) && v.used == old(v.used) + CheckCost(d, |p.basis|)
  {
    hide Linked, IsRing, Hd, QsOk, Auth, DeliveredProof, EqualPolys, EqualKeys;
    LinkedRing(p, v);
    var sp := new QSStateProver(p.r, chi);
    var sv := new QSStateVerifier(v.r, v.delta, chi);
    FreshQs(sp, sv, d);
    RunEqualEach(sp, sv, d, cs, ks, xs, ms, ls);
    ok, proof := RunFinish(sp, sv, d, p, v);
  }

  lemma FreshQs<F(!new)>(sp: QSStateProver<F>, sv: QSStateVerifier<F>, d: nat)
    requires sp.Valid() && sv.Valid() && sp.r == sv.r && sp.chi == sv.chi && d >= 1 && sp.checked == []
    requires sv.checked == []
    ensures QsOk(sp, sv, d)
  {
  }

  function Firsts<F>(ps: seq<HdDabitP<F>>): (cs: seq<seq<F>>)
    ensures |cs| == |ps|
  {
    seq(|ps|, i requires 0 <= i < |ps| => ps[i].c2)
  }

  function Seconds<F>(ps: seq<HdDabitP<F>>): (cs: seq<seq<Fp>>)
    ensures |cs| == |ps|
  {
    seq(|ps|, i requires 0 <= i < |ps| => ps[i].cp)
  }

  function FirstKeys<F>(vs: seq<HdDabitV<F>>): (ks: seq<HdKey<F>>)
    ensures |ks| == |vs|
  {
    seq(|vs|, i requires 0 <= i < |vs| => vs[i].k2)
  }

  function SecondKeys<F>(vs: seq<HdDabitV<F>>): (ks: seq<HdKey<Fp>>)
    ensures |ks| == |vs|
  {
    seq(|vs|, i requires 0 <= i < |vs| => vs[i].kp)
  }

  lemma SplitDabits<F(!new)>(pred: Pred, r: Ring<F>, d2: F, dp: Fp, ps: seq<HdDabitP<F>>, vs: seq<HdDabitV<F>>,
                             xs: seq<F>, ys: seq<Fp>)
    requires HdDabitsOk(pred, r, d2, dp, ps, vs, xs) && SameBits(r, xs, ys)
    ensures forall i :: 0 <= i < |ps| ==> Hd(r, d2, Firsts(ps)[i], FirstKeys(vs)[i], xs[i], pred.D2())
    ensures forall i :: 0 <= i < |ps| ==> Hd(FP, dp, Seconds(ps)[i], SecondKeys(vs)[i], ys[i], pred.DP())
  {
    hide Hd;
  }

  /** What a reseeding sends: one message for each field. */
  datatype SeedProof<F> = SeedProof(proof2: seq<F>, proofP: seq<Fp>)

  /** The messages prove that the seeds s2 and sp, committed with the first values of a stock, equal the outputs ps. */
  ghost function SeedProofOf<F>(s: Stock<F>, chi2: F, chiP: Fp, ps: seq<HdDabitP<F>>, s2: seq<MacProver<F>>,
                                sp: seq<MacProver<Fp>>): SeedProof<F>
  {
    if |s2| == |sp| == |ps|
    then
      SeedProof(DeliveredProof(s.r, s.basis2, s.s2, s.u2 + |ps|, chi2, EqualPolys(s.r, Firsts(ps), s2)),
                DeliveredProof(FP, s.basisP, s.sp, s.up + |ps|, chiP, EqualPolys(FP, Seconds(ps), sp)))
    else SeedProof([], [])
  }

  /** The new seed is committed to, and proved equal to the outputs held back for it. */
  method RunCommitSeed<F(!new, ==)>(p: CheddaProver<F>, v: CheddaVerifier<F>, chi2: F, chiP: Fp,
                                    ps: seq<HdDabitP<F>>, vs: seq<HdDabitV<F>>, ghost xs: seq<F>)
    returns (s2: seq<MacProver<F>>, k2: seq<MacVerifier<F>>, sp: seq<MacProver<Fp>>, kp: seq<MacVerifier<Fp>>,
             sent: SeedProof<F>, ok: bool)
    requires Wired(p, v) && |ps| > 0 && HdDabitsOk(p.prg.pred, p.fcom2.r, v.fcom2.delta, v.fcomP.delta, ps, vs, xs)
    modifies p.fcom2, p.fcomP, v.fcom2, v.fcomP
    ensures Wired(p, v) && ok && s2 != [] && Values(s2) == xs
    ensures SeedState(p.fcom2.r, v.fcom2.delta, v.fcomP.delta, |ps|, s2, k2, sp, kp)
    ensures var s := old(StockOf(p.fcom2, p.fcomP));
            && s2 == CommitAll(xs, s.Binary(0, |ps|)) && sp == CommitAll(BitNumbers(s.r, xs), s.Prime(0, |ps|))
            && sent == SeedProofOf(s, chi2, chiP, ps, s2, sp)
            && StockOf(p.fcom2, p.fcomP)
            == s.After(ReseedCost(|ps|, p.prg.pred.D2(), |s.basis2|), ReseedCost(|ps|, p.prg.pred.DP(), |s.basisP|))
    ensures UsedBy(p, v) == old(UsedBy(p, v)).Plus(|ps| + CheckCost(p.prg.pred.D2(), |p.fcom2.basis|),
                    |ps| + CheckCost(p.prg.pred.DP(), |p.fcomP.basis|))
  {
    hide Linked, Hd, Auth, IsRing, DrawsBits, SameBits, HdDabitsOk, Times, DeliveredProof, EqualPolys, CommitAll,
         Delivered, BitNumbers;
    ghost var pred, r := p.prg.pred, p.fcom2.r;
    assert |ps| == |vs| == |xs| by { DabitLengths(pred, r, v.fcom2.delta, v.fcomP.delta, ps, vs, xs); }
    var new2, newP := SeedValues(p.fcom2.r, ps, pred, v.fcom2.delta, v.fcomP.delta, vs, xs);
    SplitDabits(pred, r, v.fcom2.delta, v.fcomP.delta, ps, vs, xs, newP);
    s2, k2 := RunInput(p.fcom2, v.fcom2, new2);
    sp, kp := RunInput(p.fcomP, v.fcomP, newP);
    assert |newP| == |xs| && newP == BitNumbers(r, xs) by { SameBitsLength(r, new2, newP); }
    assert |s2| == |Values(s2)| && |sp| == |Values(sp)|;
    var ok2, proof2 := RunEqualAll(p.fcom2, v.fcom2, chi2, pred.D2(), Firsts(ps), FirstKeys(vs), new2, s2, k2);
    var okP, proofP := RunEqualAll(p.fcomP, v.fcomP, chiP, pred.DP(), Seconds(ps), SecondKeys(vs), newP, sp, kp);
    ok, sent := ok2 && okP, SeedProof(proof2, proofP);
    SeedBits(r, s2, sp);
  }

  lemma DabitLengths<F>(pred: Pred, r: Ring<F>, d2: F, dp: Fp, ps: seq<HdDabitP<F>>, vs: seq<HdDabitV<F>>, xs: seq<F>)
    requires HdDabitsOk(pred, r, d2, dp, ps, vs, xs)
    ensures |ps| == |vs| == |xs|
  {
  }

  lemma SameBitsLength<F>(r: Ring<F>, xs: seq<F>, ys: seq<Fp>)
    requires SameBits(r, xs, ys)
    ensures |xs| == |ys| && ys == BitNumbers(r, xs)
  {
  }

  lemma SeedBits<F(!new)>(r: Ring<F>, s2: seq<MacProver<F>>, sp: seq<MacProver<Fp>>)
    requires SameBits(r, Values(s2), Values(sp))
    ensures |s2| == |sp| && forall i :: 0 <= i < |sp| ==> sp[i].x <= 1
  {
    assert |Values(s2)| == |s2| && |Values(sp)| == |sp|;
    forall i | 0 <= i < |sp| ensures sp[i].x <= 1 {
      assert Values(sp)[i] == sp[i].x;
    }
  }

  /** ps are the outputs held back for the next seed, and xs their bits. */
  ghost predicate KeptBack<F>(g: LocalPrg, r: Ring<F>, f: Feed<F>, ps: seq<HdDabitP<F>>, xs: seq<F>) {
    && xs == HeldBack(g, r, Values(f.seed2), f.count)
    && ps == ExpandedDabits(g, r, f.seed2, f.seedP, f.count, g.seedLength)
  }

  method RunHeldBack<F(!new, ==)>(p: CheddaProver<F>, v: CheddaVerifier<F>)
    returns (ps: seq<HdDabitP<F>>, vs: seq<HdDabitV<F>>, ghost xs: seq<F>)
    requires Ready(p, v) && p.seed2 != []
    modifies p.prg, v.prg
    ensures Twins(p.prg, v.prg) && |ps| == p.prg.seedLength > 0
    ensures HdDabitsOk(p.prg.pred, p.fcom2.r, v.fcom2.delta, v.fcomP.delta, ps, vs, xs)
    ensures KeptBack(p.prg, p.fcom2.r, old(FeedOf(p)), ps, xs)
  {
    hide Wired, SeedState, IsRing, IsBinary, ExpandedDabits, Outputs, Values, HdDabitsOk, Ready, Twins, Capacity,
         StockOf;
    ReadyParts(p, v);
    ps, vs, xs :=
      RunTake(p.prg, v.prg, p.fcom2.r, v.fcom2.delta, v.fcomP.delta, p.seed2, v.seed2, p.seedP, v.seedP,
              p.prg.seedLength);
    DabitLengths(p.prg.pred, p.fcom2.r, v.fcom2.delta, v.fcomP.delta, ps, vs, xs);
  }

  // ---- the prover's side of the stream, with its macs ----

  /** A generator's seeds and position, and the stock of random values behind it. */
  datatype Feed<!F> = Feed(stock: Stock<F>, seed2: seq<MacProver<F>>, seedP: seq<MacProver<Fp>>, count: nat)

  ghost function FeedOf<F(!new)>(p: CheddaProver<F>): Feed<F>
    reads p, p.prg, p.fcom2, p.fcomP
  {
    Feed(StockOf(p.fcom2, p.fcomP), p.seed2, p.seedP, p.prg.count)
  }

  /** The outputs held back, committed to as the next seeds. */
  ghost function NextFeed<F>(g: LocalPrg, f: Feed<F>): Feed<F> {
    var xs, n := HeldBack(g, f.stock.r, Values(f.seed2), f.count), g.seedLength;
    Feed(f.stock.After(ReseedCost(n, g.pred.D2(), |f.stock.basis2|), ReseedCost(n, g.pred.DP(), |f.stock.basisP|)),
         CommitAll(xs, f.stock.Binary(0, n)), CommitAll(BitNumbers(f.stock.r, xs), f.stock.Prime(0, n)), 0)
  }

  /** The messages of that reseeding. */
  ghost function NextProof<F>(g: LocalPrg, f: Feed<F>, chi2: F, chiP: Fp): SeedProof<F> {
    var next := NextFeed(g, f);
    SeedProofOf(f.stock, chi2, chiP, ExpandedDabits(g, f.stock.r, f.seed2, f.seedP, f.count, g.seedLength), next.seed2,
                next.seedP)
  }

  /** The state from which the next output is taken. */
  ghost function Room<F>(g: LocalPrg, f: Feed<F>): Feed<F>
    requires g.outputLength > g.seedLength
  {
    if f.count == Capacity(g) then NextFeed(g, f) else f
  }

  ghost function RoomProofs<F>(g: LocalPrg, f: Feed<F>, chi2: F, chiP: Fp): seq<SeedProof<F>>
    requires g.outputLength > g.seedLength
  {
    if f.count == Capacity(g) then [NextProof(g, f, chi2, chiP)] else []
  }

  ghost function FedDabit<F>(g: LocalPrg, f: Feed<F>): HdDabitP<F>
    requires g.outputLength > g.seedLength
  {
    var room := Room(g, f);
    ExpandedDabit(g, f.stock.r, room.seed2, room.seedP, room.count)
  }

  ghost function Fed<F>(g: LocalPrg, f: Feed<F>): Feed<F>
    requires g.outputLength > g.seedLength
  {
    var room := Room(g, f);
    room.(count := room.count + 1)
  }

  ghost function FedAfter<F>(g: LocalPrg, f: Feed<F>, n: nat): Feed<F>
    requires g.outputLength > g.seedLength
  {
    if n == 0 then f else Fed(g, FedAfter(g, f, n - 1))
  }

  /** The next n daBits. */
  ghost function FedDabits<F>(g: LocalPrg, f: Feed<F>, n: nat): (ps: seq<HdDabitP<F>>)
    requires g.outputLength > g.seedLength
    ensures |ps| == n
  {
    if n == 0 then [] else FedDabits(g, f, n - 1) + [FedDabit(g, FedAfter(g, f, n - 1))]
  }

  /** All messages of the reseedings on the way. */
  ghost function FedProofs<F>(g: LocalPrg, f: Feed<F>, chis: nat -> (F, Fp), n: nat): seq<SeedProof<F>>
    requires g.outputLength > g.seedLength
  {
    if n == 0 then []
    else FedProofs(g, f, chis, n - 1) + RoomProofs(g, FedAfter(g, f, n - 1), chis(n - 1).0, chis(n - 1).1)
  }

  /** `next` and what was sent are those of the reseeding from f. */
  ghost predicate Refilled<F>(g: LocalPrg, f: Feed<F>, chi2: F, chiP: Fp, next: Feed<F>, sent: SeedProof<F>) {
    && next == NextFeed(g, f) && sent == NextProof(g, f, chi2, chiP)
    && Values(next.seed2) == HeldBack(g, f.stock.r, Values(f.seed2), f.count)
  }

  /** The same, for the outputs held back by a feed. */
  method RunCommitNext<F(!new, ==)>(p: CheddaProver<F>, v: CheddaVerifier<F>, chi2: F, chiP: Fp, ghost f: Feed<F>,
                                    ps: seq<HdDabitP<F>>, vs: seq<HdDabitV<F>>, ghost xs: seq<F>)
    returns (s2: seq<MacProver<F>>, k2: seq<MacVerifier<F>>, sp: seq<MacProver<Fp>>, kp: seq<MacVerifier<Fp>>,
             sent: SeedProof<F>)
    requires Wired(p, v) && |ps| > 0 && HdDabitsOk(p.prg.pred, p.fcom2.r, v.fcom2.delta, v.fcomP.delta, ps, vs, xs)
    requires |ps| == p.prg.seedLength && f.stock == StockOf(p.fcom2, p.fcomP)
    requires KeptBack(p.prg, p.fcom2.r, f, ps, xs)
    requires Twins(p.prg, v.prg)
    modifies p.fcom2, p.fcomP, v.fcom2, v.fcomP
    ensures Wired(p, v) && Twins(p.prg, v.prg) && s2 != []
    ensures SeedState(p.fcom2.r, v.fcom2.delta, v.fcomP.delta, p.prg.seedLength, s2, k2, sp, kp)
    ensures Refilled(p.prg, f, chi2, chiP, Feed(StockOf(p.fcom2, p.fcomP), s2, sp, 0), sent)
    ensures UsedBy(p, v) == old(UsedBy(p, v)).Plus(p.prg.seedLength + CheckCost(p.prg.pred.D2(), |p.fcom2.basis|),
                    p.prg.seedLength + CheckCost(p.prg.pred.DP(), |p.fcomP.basis|))
  {
    hide Wired, SeedState, Times, Values, HdDabitsOk, HeldBack, Ready, Twins, CheckCost, IsBinary, LocalPrg.Valid,
         ExpandedDabits, SeedProofOf, CommitAll, BitNumbers, Delivered, NextFeed, NextProof, ReseedCost;
    var ok;
    s2, k2, sp, kp, sent, ok := RunCommitSeed(p, v, chi2, chiP, ps, vs, xs);
    Refed(p.prg, f, chi2, chiP, ps, xs, s2, sp, sent);
  }

  /** The outputs held back, committed to as the next seed. */
  method RunNextSeed<F(!new, ==)>(p: CheddaProver<F>, v: CheddaVerifier<F>, chi2: F, chiP: Fp)
    returns (s2: seq<MacProver<F>>, k2: seq<MacVerifier<F>>, sp: seq<MacProver<Fp>>, kp: seq<MacVerifier<Fp>>,
             sent: SeedProof<F>)
    requires Ready(p, v) && p.seed2 != []
    modifies p.prg, p.fcom2, p.fcomP, v.prg, v.fcom2, v.fcomP
    ensures Wired(p, v) && Twins(p.prg, v.prg) && s2 != []
    ensures SeedState(p.fcom2.r, v.fcom2.delta, v.fcomP.delta, p.prg.seedLength, s2, k2, sp, kp)
    ensures Refilled(p.prg, old(FeedOf(p)), chi2, chiP, Feed(StockOf(p.fcom2, p.fcomP), s2, sp, 0), sent)
    ensures UsedBy(p, v) == old(UsedBy(p, v)).Plus(p.prg.seedLength + CheckCost(p.prg.pred.D2(), |p.fcom2.basis|),
                    p.prg.seedLength + CheckCost(p.prg.pred.DP(), |p.fcomP.basis|))
  {
    hide Wired, SeedState, Times, Values, HdDabitsOk, HeldBack, Ready, Twins, CheckCost, IsBinary, LocalPrg.Valid,
         ExpandedDabits, SeedProofOf, CommitAll, BitNumbers, Delivered, StockOf, ReseedCost, KeptBack, Refilled, UsedBy,
         Used.Plus;
    assert Wired(p, v) by {
      ReadyParts(p, v);
    }
    ghost var xs, f := [], FeedOf(p);
    var ps, vs;
    ps, vs, xs := RunHeldBack(p, v);
    assert StockOf(p.fcom2, p.fcomP) == f.stock;
    FeedParts(p);
    s2, k2, sp, kp, sent := RunCommitNext(p, v, chi2, chiP, f, ps, vs, xs);
  }

  lemma FeedIs<F(!new)>(p: CheddaProver<F>, s: Stock<F>, s2: seq<MacProver<F>>, sp: seq<MacProver<Fp>>, count: nat)
    requires StockOf(p.fcom2, p.fcomP) == s && p.seed2 == s2 && p.seedP == sp && p.prg.count == count
    ensures FeedOf(p) == Feed(s, s2, sp, count)
  {
  }

  lemma FeedParts<F(!new)>(p: CheddaProver<F>)
    ensures FeedOf(p) == Feed(StockOf(p.fcom2, p.fcomP), p.seed2, p.seedP, p.prg.count)
    ensures FeedOf(p).stock.r == p.fcom2.r && |FeedOf(p).stock.basis2| == |p.fcom2.basis|
    ensures |FeedOf(p).stock.basisP| == |p.fcomP.basis|
  {
  }

  lemma Refed<F>(g: LocalPrg, f: Feed<F>, chi2: F, chiP: Fp, ps: seq<HdDabitP<F>>, xs: seq<F>, s2: seq<MacProver<F>>,
                 sp: seq<MacProver<Fp>>, sent: SeedProof<F>)
    requires ps == ExpandedDabits(g, f.stock.r, f.seed2, f.seedP, f.count, g.seedLength)
    requires xs == HeldBack(g, f.stock.r, Values(f.seed2), f.count)
    requires s2 == CommitAll(xs, f.stock.Binary(0, |ps|))
    requires sp == CommitAll(BitNumbers(f.stock.r, xs), f.stock.Prime(0, |ps|))
    requires sent == SeedProofOf(f.stock, chi2, chiP, ps, s2, sp)
    ensures NextFeed(g, f)
         == Feed(f.stock.After(ReseedCost(|ps|, g.pred.D2(), |f.stock.basis2|),
                               ReseedCost(|ps|, g.pred.DP(), |f.stock.basisP|)), s2, sp, 0)
    ensures sent == NextProof(g, f, chi2, chiP)
  {
    hide ExpandedDabits, HeldBack, CommitAll, Delivered, SeedProofOf, BitNumbers, ReseedCost, Values;
  }

  /** Reseeding from the outputs held back: it always succeeds, and the generator starts over. */
  method RunReseed<F(!new, ==)>(p: CheddaProver<F>, v: CheddaVerifier<F>, chi2: F, chiP: Fp)
    returns (sent: SeedProof<F>)
    requires Ready(p, v) && p.seed2 != []
    modifies p, p.prg, p.fcom2, p.fcomP, v, v.prg, v.fcom2, v.fcomP
    ensures Ready(p, v) && p.seed2 != [] && p.prg.count == 0
    ensures Values(p.seed2) == HeldBack(p.prg, p.fcom2.r, Values(old(p.seed2)), old(p.prg.count))
    ensures FeedOf(p) == NextFeed(p.prg, old(FeedOf(p))) && sent == NextProof(p.prg, old(FeedOf(p)), chi2, chiP)
    ensures UsedBy(p, v) == old(UsedBy(p, v)).Plus(p.prg.seedLength + CheckCost(p.prg.pred.D2(), |p.fcom2.basis|),
                    p.prg.seedLength + CheckCost(p.prg.pred.DP(), |p.fcomP.basis|))
  {
    hide Wired, SeedState, IsRing, Times, IsBinary, Output, Values, HeldBack, Ready, Twins, CheckCost, Capacity,
         NextFeed, NextProof;
    var s2, k2, sp, kp;
    s2, k2, sp, kp, sent := RunNextSeed(p, v, chi2, chiP);
    StillTwins(p.prg, v.prg);
    p.prg.Reset();
    v.prg.Reset();
    p.SetSeeds(s2, sp);
    v.SetSeeds(k2, kp);
    FreshReady(p, v);
    FeedParts(p);
  }

  lemma ReadyParts<F(!new)>(p: CheddaProver<F>, v: CheddaVerifier<F>)
    requires Ready(p, v)
    ensures Wired(p, v) && Twins(p.prg, v.prg) && p.prg.count + p.prg.seedLength <= p.prg.outputLength
    ensures p.prg.seedLength > 0
    ensures IsBinary(p.fcom2.r) && p.prg.Valid() && v.prg.Valid() && p.prg != v.prg
    ensures SeedState(p.fcom2.r, v.fcom2.delta, v.fcomP.delta, p.prg.seedLength, p.seed2, v.seed2, p.seedP, v.seedP)
  {
  }

  lemma StillTwins(g: LocalPrg, h: LocalPrg)
    requires Twins(g, h)
    ensures g.Valid() && h.Valid() && SameGenerators(g, h)
  {
  }

  lemma TwinsAgain(g: LocalPrg, h: LocalPrg)
    requires SameGenerators(g, h) && g.Valid() && h.Valid() && g.count == h.count
    ensures Twins(g, h)
  {
  }

  lemma FreshReady<F(!new)>(p: CheddaProver<F>, v: CheddaVerifier<F>)
    requires Wired(p, v) && p.prg.Valid() && v.prg.Valid() && p.prg.count == v.prg.count == 0
    requires SameGenerators(p.prg, v.prg)
    requires SeedState(p.fcom2.r, v.fcom2.delta, v.fcomP.delta, p.prg.seedLength, p.seed2, v.seed2, p.seedP, v.seedP)
    ensures Ready(p, v)
  {
  }

  // ---- seeding ----

  /** What a first seed draws: the masks of its daBit generation, the challenges, the hash of the openings. */
  datatype SeedInputs<!F> = SeedInputs(hash2: seq<F> -> seq<F>, hashP: seq<Fp> -> seq<Fp>, chi: Fp, sampled: seq<nat>,
                                       es: seq<seq<bool>>)

  ghost predicate SeedInputsOk<F(!new)>(i: SeedInputs<F>, n: nat) {
    && Hashes(i.hash2) && Hashes(i.hashP) && Challenges(n, i.es) && |i.sampled| == |i.es|
    && forall j :: 0 <= j < |i.es| ==> i.sampled[j] < n * TWO_TO_S_V1
  }

  /** The first seeds: the next random bits themselves, and their numbers committed next to them. */
  ghost function FirstFeed<F>(f: Feed<F>, n: nat): Feed<F> {
    var bits, (m2, mp) := f.stock.Binary(0, n), VolesV1(n, |f.stock.basisP|);
    Feed(f.stock.After(m2, mp), bits, CommitAll(BitNumbers(f.stock.r, Values(bits)), f.stock.Prime(0, n)), f.count)
  }

  lemma DrawnSeeds<F>(f: Feed<F>, n: nat, ds: seq<DabitP<F>>)
    requires ds == DrawnDabits(f.stock, n)
    ensures DabitBitsP(ds) == FirstFeed(f, n).seed2 && DabitValuesP(ds) == FirstFeed(f, n).seedP
    ensures var (m2, mp) := VolesV1(n, |f.stock.basisP|);
            FirstFeed(f, n).stock == f.stock.After(m2, mp) && FirstFeed(f, n).count == f.count
  {
    hide Delivered, BitNat;
  }

  /** A first seed, from daBits; the generator is left where it is. */
  method RunFirstSeed<F(!new, ==)>(p: CheddaProver<F>, v: CheddaVerifier<F>, inputs: SeedInputs<F>)
    returns (ok: bool, trace: DabitTrace<F>)
    requires Ready(p, v) && SeedInputsOk(inputs, p.prg.seedLength)
    modifies p, p.fcom2, p.fcomP, v, v.fcom2, v.fcomP
    ensures Ready(p, v) && p.prg.count == old(p.prg.count)
    ensures ok ==> p.seed2 != [] && FeedOf(p) == FirstFeed(old(FeedOf(p)), p.prg.seedLength)
    ensures ok ==> DabitsTraced(old(StockOf(p.fcom2, p.fcomP)), inputs.chi, p.prg.seedLength, inputs.sampled, inputs.es,
                                trace)
    ensures SafeSamples(p.prg.seedLength, inputs.sampled) ==> ok
    ensures CheckParamsV1(p.prg.seedLength) ==>
              var (n2, np) := VolesV1(p.prg.seedLength, |p.fcomP.basis|);
              UsedBy(p, v) == old(UsedBy(p, v)).Plus(n2, np)
  {
    hide Linked, IsRing, IsBinary, DrawsBits, AuthDabits, Consistent, Hashes, SeedState, MaskFits, Selected,
         AdjustMask, BitNat, CheckParamsV1, DrawnDabits, DrawnMasks, DabitsTraced, FirstFeed, Delivered;
    var n := p.prg.seedLength;
    ghost var f := FeedOf(p);
    var ds, ks;
    ghost var ms;
    ok, ds, ks, ms, trace :=
      RunGenDabitsV1(p.fcom2, v.fcom2, p.fcomP, v.fcomP, inputs.hash2, inputs.hashP, inputs.chi, n, inputs.sampled,
                     inputs.es);
    if SafeSamples(n, inputs.sampled) {
      forall j | 0 <= j < |inputs.es|
        ensures MaskFits(n, AdjustMask(inputs.sampled[j], BitNat(p.fcom2.r, ms[j].bit.x)),
                         Selected(inputs.es[j], BitNats(p.fcom2.r, ds)))
      {
        SafeFits(p.fcom2.r, n, inputs.sampled[j], BitNat(p.fcom2.r, ms[j].bit.x), inputs.es[j], ds);
      }
    }
    if ok {
      DabitSeeds(p.fcom2.r, v.fcom2.delta, v.fcomP.delta, ds, ks);
      DrawnSeeds(f, n, ds);
      p.SetSeeds(DabitBitsP(ds), DabitValuesP(ds));
      v.SetSeeds(DabitBitsV(ks), DabitValuesV(ks));
    }
  }

  lemma DabitSeeds<F(!new)>(r: Ring<F>, d2: F, dp: Fp, ds: seq<DabitP<F>>, ks: seq<DabitV<F>>)
    requires AuthDabits(r, d2, dp, ds, ks) && Consistent(r, ds)
    ensures SeedState(r, d2, dp, |ds|, DabitBitsP(ds), DabitBitsV(ks), DabitValuesP(ds), DabitValuesV(ks))
  {
    hide Auth, IsBit, BitNat;
    var xs, ys := Values(DabitBitsP(ds)), Values(DabitValuesP(ds));
    forall i | 0 <= i < |ds| ensures IsBit(r, xs[i]) && ys[i] == BitNat(r, xs[i]) {
      assert xs[i] == ds[i].bit.x && ys[i] == ds[i].value.x;
    }
  }

  /** What `gen_seed` sends, in either case. */
  datatype SeedSent<F> = FromDabits(dabits: DabitTrace<F>) | FromOutputs(proof: SeedProof<F>)

  /** `gen_seed`: the first seed comes from daBits, a later one from the outputs held back. */
  method RunGenSeed<F(!new, ==)>(p: CheddaProver<F>, v: CheddaVerifier<F>, inputs: SeedInputs<F>, chi2: F, chiP: Fp)
    returns (ok: bool, sent: SeedSent<F>)
    requires Ready(p, v) && SeedInputsOk(inputs, p.prg.seedLength)
    modifies p, p.prg, p.fcom2, p.fcomP, v, v.prg, v.fcom2, v.fcomP
    ensures Ready(p, v)
    ensures old(p.seed2) == [] && ok ==>
      && FeedOf(p) == FirstFeed(old(FeedOf(p)), p.prg.seedLength) && sent.FromDabits?
      && DabitsTraced(old(StockOf(p.fcom2, p.fcomP)), inputs.chi, p.prg.seedLength, inputs.sampled, inputs.es,
                      sent.dabits)
    ensures old(p.seed2) != [] ==>
      FeedOf(p) == NextFeed(p.prg, old(FeedOf(p))) && sent == FromOutputs(NextProof(p.prg, old(FeedOf(p)), chi2, chiP))
    ensures old(p.seed2) == [] ==>
      && p.prg.count == old(p.prg.count) && (ok ==> p.seed2 != [])
      && (SafeSamples(p.prg.seedLength, inputs.sampled) ==> ok)
    ensures old(p.seed2) == [] && CheckParamsV1(p.prg.seedLength) ==>
              var (n2, np) := VolesV1(p.prg.seedLength, |p.fcomP.basis|);
              UsedBy(p, v) == old(UsedBy(p, v)).Plus(n2, np)
    ensures old(p.seed2) != [] ==> ok && p.seed2 != [] && p.prg.count == 0
    ensures old(p.seed2) != [] ==> Values(p.seed2) == HeldBack(p.prg, p.fcom2.r, Values(old(p.seed2)), old(p.prg.count))
    ensures old(p.seed2) != [] ==>
              UsedBy(p, v) == old(UsedBy(p, v)).Plus(ReseedCost(p.prg.seedLength, p.prg.pred.D2(), |p.fcom2.basis|),
                      ReseedCost(p.prg.seedLength, p.prg.pred.DP(), |p.fcomP.basis|))
  {
    hide Wired, SeedState, IsRing, IsBinary, CheckParamsV1, SafeSamples, SeedInputsOk, VolesV1, HeldBack, Values,
         NextFeed, NextProof, FirstFeed, DabitsTraced;
    if p.seed2 == [] || p.prg.Remaining() < p.prg.seedLength {
      var dabits;
      ok, dabits := RunFirstSeed(p, v, inputs);
      sent := FromDabits(dabits);
    } else {
      var proof := RunReseed(p, v, chi2, chiP);
      ok, sent := true, FromOutputs(proof);
    }
  }

  function ReseedCost(seedLength: nat, degree: nat, basis: nat): nat
    requires degree > 0
  {
    seedLength + CheckCost(degree, basis)
  }

  /** Both the stream and the feed are where the next output is taken. */
  ghost predicate Roomy<F>(g: LocalPrg, f: Feed<F>, room: Feed<F>)
    requires g.outputLength > g.seedLength
  {
    && room == Room(g, f)
    && Stream(Values(room.seed2), room.count) == Reseeded(g, f.stock.r, Stream(Values(f.seed2), f.count))
  }

  /** The first half of `gen_dabit`: reseeds when only the outputs held back are left. */
  method RunMakeRoom<F(!new, ==)>(p: CheddaProver<F>, v: CheddaVerifier<F>, inputs: SeedInputs<F>, chi2: F, chiP: Fp)
    returns (sent: seq<SeedProof<F>>)
    requires Ready(p, v) && SeedInputsOk(inputs, p.prg.seedLength) && p.seed2 != []
    modifies p, p.prg, p.fcom2, p.fcomP, v, v.prg, v.fcom2, v.fcomP
    ensures Ready(p, v) && p.seed2 != [] && p.prg.count < Capacity(p.prg)
    ensures p.prg.count + 1 == NextCount(Capacity(p.prg), old(p.prg.count))
    ensures p.prg.outputLength > p.prg.seedLength && Roomy(p.prg, old(FeedOf(p)), FeedOf(p))
    ensures sent == RoomProofs(p.prg, old(FeedOf(p)), chi2, chiP)
    ensures var again := Again(Capacity(p.prg), old(p.prg.count));
            UsedBy(p,
                   v) == old(UsedBy(p, v)).Plus(Times(again,
                                                      ReseedCost(p.prg.seedLength, p.prg.pred.D2(), |p.fcom2.basis|)),
                    Times(again, ReseedCost(p.prg.seedLength, p.prg.pred.DP(), |p.fcomP.basis|)))
  {
    hide Wired, SeedState, IsRing, IsBinary, SeedInputsOk, ReseedCost, VolesV1, SafeSamples, CheckParamsV1, HeldBack,
         Values, Ready, Twins, Times, NextFeed, NextProof, FirstFeed, DabitsTraced;
    ReadyParts(p, v);
    sent := [];
    if p.prg.Remaining() <= p.prg.seedLength {
      var ok, seed := RunGenSeed(p, v, inputs, chi2, chiP);
      sent := [seed.proof];
    }
    OneTime(ReseedCost(p.prg.seedLength, p.prg.pred.D2(), |p.fcom2.basis|));
    OneTime(ReseedCost(p.prg.seedLength, p.prg.pred.DP(), |p.fcomP.basis|));
  }

  lemma OneTime(c: nat)
    ensures Times(0, c) == 0 && Times(1, c) == c
  {
  }

  lemma StillReady<F(!new)>(p: CheddaProver<F>, v: CheddaVerifier<F>)
    requires Wired(p, v) && Twins(p.prg, v.prg) && p.prg.count + p.prg.seedLength <= p.prg.outputLength
    requires SeedState(p.fcom2.r, v.fcom2.delta, v.fcomP.delta, p.prg.seedLength, p.seed2, v.seed2, p.seedP, v.seedP)
    ensures Ready(p, v)
  {
  }

  /** x and a are the next bit of the stream and the next daBit of the feed, and `next` is where that leaves both. */
  ghost predicate Dealt<F>(g: LocalPrg, f: Feed<F>, next: Feed<F>, a: HdDabitP<F>, x: F)
    requires g.outputLength > g.seedLength
  {
    var r, s := f.stock.r, Stream(Values(f.seed2), f.count);
    && x == Drawn(g, r, s) && Stream(Values(next.seed2), next.count) == Advanced(g, r, s)
    && a == FedDabit(g, f) && next == Fed(g, f)
  }

  lemma DealtFrom<F>(g: LocalPrg, r: Ring<F>, f: Feed<F>, room: Feed<F>, next: Feed<F>, a: HdDabitP<F>, x: F)
    requires g.outputLength > g.seedLength && Roomy(g, f, room) && f.stock.r == r
    requires x == Output(g, r, Values(room.seed2), room.count)
    requires a == ExpandedDabit(g, r, room.seed2, room.seedP, room.count)
    requires next == room.(count := room.count + 1)
    ensures Dealt(g, f, next, a, x)
  {
    hide Values, Reseeded, Output, ExpandedDabit, Room;
  }

  /** The next output, from where a feed has one to give. */
  method RunDeal<F(!new, ==)>(g: LocalPrg, h: LocalPrg, r: Ring<F>, d2: F, dp: Fp, s2: seq<MacProver<F>>,
                              k2: seq<MacVerifier<F>>, sp: seq<MacProver<Fp>>, kp: seq<MacVerifier<Fp>>,
                              ghost f: Feed<F>, ghost room: Feed<F>)
    returns (a: HdDabitP<F>, b: HdDabitV<F>, ghost x: F)
    requires Twins(g, h) && IsBinary(r) && SeedState(r, d2, dp, g.seedLength, s2, k2, sp, kp) && s2 != []
    requires g.count < g.outputLength && g.outputLength > g.seedLength && f.stock.r == r
    requires Roomy(g, f, room) && room.seed2 == s2 && room.seedP == sp && room.count == g.count
    modifies g, h
    ensures Twins(g, h) && g.count == old(g.count) + 1 && HdDabitOk(g.pred, r, d2, dp, a, b, x)
    ensures Dealt(g, f, Feed(room.stock, s2, sp, g.count), a, x)
  {
    hide Twins, IsBinary, SeedState, HdDabitOk, Output, Values, ExpandedDabit, Roomy, Dealt, FP;
    a, b, x := RunNext(g, h, r, d2, dp, s2, k2, sp, kp);
    DealtFrom(g, r, f, room, Feed(room.stock, s2, sp, g.count), a, x);
  }

  method RunTakeNext<F(!new, ==)>(p: CheddaProver<F>, v: CheddaVerifier<F>, ghost f: Feed<F>)
    returns (a: HdDabitP<F>, b: HdDabitV<F>, ghost x: F)
    requires Ready(p, v) && p.seed2 != [] && p.prg.count < Capacity(p.prg)
    requires Roomy(p.prg, f, FeedOf(p)) && f.stock.r == p.fcom2.r
    modifies p.prg, v.prg
    ensures Ready(p, v) && HdDabitOk(p.prg.pred, p.fcom2.r, v.fcom2.delta, v.fcomP.delta, a, b, x)
    ensures p.prg.outputLength > p.prg.seedLength && Dealt(p.prg, f, FeedOf(p), a, x)
    ensures p.prg.count == old(p.prg.count) + 1
  {
    hide Wired, SeedState, IsBinary, HdDabitOk, Ready, Twins, StockOf, LocalPrg.Valid, FP, FeedOf, Roomy, Dealt;
    ReadyParts(p, v);
    ghost var s, room := StockOf(p.fcom2, p.fcomP), FeedOf(p);
    FeedIs(p, s, p.seed2, p.seedP, p.prg.count);
    a, b, x :=
      RunDeal(p.prg, v.prg, p.fcom2.r, v.fcom2.delta, v.fcomP.delta, p.seed2, v.seed2, p.seedP, v.seedP, f, room);
    StillReady(p, v);
    FeedIs(p, s, p.seed2, p.seedP, p.prg.count);
  }

  /** `gen_dabit`: reseeds when only the outputs held back are left, and then always has one to give. */
  method RunGenDabit<F(!new, ==)>(p: CheddaProver<F>, v: CheddaVerifier<F>, inputs: SeedInputs<F>, chi2: F, chiP: Fp)
    returns (a: HdDabitP<F>, b: HdDabitV<F>, ghost x: F, sent: seq<SeedProof<F>>)
    requires Ready(p, v) && SeedInputsOk(inputs, p.prg.seedLength) && p.seed2 != []
    modifies p, p.prg, p.fcom2, p.fcomP, v, v.prg, v.fcom2, v.fcomP
    ensures Ready(p, v) && p.seed2 != [] && HdDabitOk(p.prg.pred, p.fcom2.r, v.fcom2.delta, v.fcomP.delta, a, b, x)
    ensures p.prg.count == NextCount(Capacity(p.prg), old(p.prg.count))
    ensures Dealt(p.prg, old(FeedOf(p)), FeedOf(p), a, x) && sent == RoomProofs(p.prg, old(FeedOf(p)), chi2, chiP)
    ensures var again := Again(Capacity(p.prg), old(p.prg.count));
            UsedBy(p,
                   v) == old(UsedBy(p, v)).Plus(Times(again,
                                                      ReseedCost(p.prg.seedLength, p.prg.pred.D2(), |p.fcom2.basis|)),
                    Times(again, ReseedCost(p.prg.seedLength, p.prg.pred.DP(), |p.fcomP.basis|)))
  {
    hide Wired, SeedState, IsRing, IsBinary, HdDabitOk, SeedInputsOk, ReseedCost, HeldBack, Output, Values, Reseeded,
         Ready, Twins, Times, ExpandedDabit, Room, RoomProofs, Dealt, Roomy, NextCount, Again, StockOf, UsedBy,
         Used.Plus, FeedOf, FP;
    ReadyCapacity(p, v);
    ghost var f := FeedOf(p);
    FeedParts(p);
    sent := RunMakeRoom(p, v, inputs, chi2, chiP);
    a, b, x := RunTakeNext(p, v, f);
  }

  lemma TimesPlus(a: nat, b: nat, c: nat)
    requires b <= 1
    ensures Times(a, c) + Times(b, c) == Times(a + b, c)
  {
    assert Times(0, c) == 0 && Times(1, c) == c && Times(a + 1, c) == Times(a, c) + c;
  }

  /** n daBits, across as many reseedings as they take. */
  method RunGenDabits<F(!new, ==)>(p: CheddaProver<F>, v: CheddaVerifier<F>, inputs: SeedInputs<F>,
                                   chis: nat -> (F, Fp), n: nat)
    returns (ps: seq<HdDabitP<F>>, vs: seq<HdDabitV<F>>, ghost xs: seq<F>, sent: seq<SeedProof<F>>)
    requires Ready(p, v) && SeedInputsOk(inputs, p.prg.seedLength) && p.seed2 != []
    modifies p, p.prg, p.fcom2, p.fcomP, v, v.prg, v.fcom2, v.fcomP
    ensures Ready(p, v) && p.seed2 != [] && |ps| == n
    ensures HdDabitsOk(p.prg.pred, p.fcom2.r, v.fcom2.delta, v.fcomP.delta, ps, vs, xs)
    ensures p.prg.count == CountAfter(Capacity(p.prg), old(p.prg.count), n)
    ensures var s := Stream(Values(old(p.seed2)), old(p.prg.count));
            && xs == StreamBits(p.prg, p.fcom2.r, s, n)
            && Stream(Values(p.seed2), p.prg.count) == After(p.prg, p.fcom2.r, s, n)
    ensures var f := old(FeedOf(p));
            && ps == FedDabits(p.prg, f, n) && FeedOf(p) == FedAfter(p.prg, f, n)
            && sent == FedProofs(p.prg, f, chis, n)
    ensures var again := Reseeds(Capacity(p.prg), old(p.prg.count), n);
            UsedBy(p,
                   v) == old(UsedBy(p, v)).Plus(Times(again,
                                                      ReseedCost(p.prg.seedLength, p.prg.pred.D2(), |p.fcom2.basis|)),
                    Times(again, ReseedCost(p.prg.seedLength, p.prg.pred.DP(), |p.fcomP.basis|)))
  {
    hide Ready, HdDabitOk, SeedInputsOk, ReseedCost, Times, Drawn, Advanced, Values, FedDabit, Fed, RoomProofs;
    assert p.prg.outputLength > p.prg.seedLength by { ReadyCapacity(p, v); }
    ghost var per, c2, cp := Capacity(p.prg), ReseedCost(p.prg.seedLength, p.prg.pred.D2(), |p.fcom2.basis|),
    ReseedCost(p.prg.seedLength, p.prg.pred.DP(), |p.fcomP.basis|);
    hide Capacity;
    ghost var s := Stream(Values(p.seed2), p.prg.count);
    ghost var f := FeedOf(p);
    ps, vs, xs, sent := [], [], [], [];
    NoTimes(c2);
    NoTimes(cp);
    for i := 0 to n
      invariant Ready(p, v) && p.seed2 != [] && |ps| == i
      invariant HdDabitsOk(p.prg.pred, p.fcom2.r, v.fcom2.delta, v.fcomP.delta, ps, vs, xs)
      invariant p.prg.count == CountAfter(per, old(p.prg.count), i)
      invariant xs == StreamBits(p.prg, p.fcom2.r, s, i)
      invariant Stream(Values(p.seed2), p.prg.count) == After(p.prg, p.fcom2.r, s, i)
      invariant ps == FedDabits(p.prg, f, i) && FeedOf(p) == FedAfter(p.prg, f, i)
      invariant sent == FedProofs(p.prg, f, chis, i)
      invariant UsedBy(p, v) == old(UsedBy(p, v)).Plus(Times(Reseeds(per, old(p.prg.count), i), c2),
                        Times(Reseeds(per, old(p.prg.count), i), cp))
    {
      ghost var again := Again(per, p.prg.count);
      TimesPlus(Reseeds(per, old(p.prg.count), i), again, c2);
      TimesPlus(Reseeds(per, old(p.prg.count), i), again, cp);
      var (chi2, chiP) := chis(i);
      var a, b, proofs;
      ghost var x;
      a, b, x, proofs := RunGenDabit(p, v, inputs, chi2, chiP);
      ps, vs, xs, sent := ps + [a], vs + [b], xs + [x], sent + proofs;
    }
  }

  lemma ReadyCapacity<F(!new)>(p: CheddaProver<F>, v: CheddaVerifier<F>)
    requires Ready(p, v)
    ensures p.prg.outputLength > p.prg.seedLength > 0
  {
  }
}
