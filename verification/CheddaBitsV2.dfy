/** Generating daBits, version 2: masked sums are halved in the field and proved to lie in a range. */
module CheddaBitsV2 {
  import opened Arith
  import opened Rings
  import opened Sums
  import opened PrimeField
  import opened Bits
  import opened Homcom
  import opened QuickSilver
  import opened Fdabit
  import opened FdabitRun
  import opened EdabitConversionRun
  import opened HdQuicksilver
  import opened HdValues
  import opened RangeCheck
  import opened RangeLists
  import opened RangeRun
  import opened CheddaBits

  const RANGE_MAX_CHUNK_SIZE: nat := 8

  /** `compute_v2_range_bounds`, with the slack t as a parameter. */
  function RangeBounds(n: nat, t: nat): (int, int) {
    (n / 8 - t, n / 8 + t)
  }

  /** Masks of version 2: random bits, committed in both fields. */
  method RunMasksV2<F(!new, ==)>(p2: FComProver<F>, v2: FComVerifier<F>, pp: FComProver<Fp>, vp: FComVerifier<Fp>,
                                 count: nat)
    returns (ds: seq<DabitP<F>>, ks: seq<DabitV<F>>)
    requires Linked(p2, v2) && Linked(pp, vp) && pp.r == FP && DrawsBits(p2)
    requires {p2 as object, v2} !! {pp as object, vp}
    modifies p2, v2, pp, vp
    ensures Linked(p2, v2) && Linked(pp, vp) && |ds| == count
    ensures AuthDabits(p2.r, v2.delta, vp.delta, ds, ks) && Consistent(p2.r, ds)
    ensures ds == DrawnDabits(old(StockOf(p2, pp)), count)
    ensures p2.used == old(p2.used) + count && v2.used == old(v2.used) + count && pp.used == old(pp.used) + count
    ensures vp.used == old(vp.used) + count
  {
    hide Linked, Auth, IsBit, BitNat, DrawsBits, DrawnDabits, Delivered, CommitAll;
    ds, ks := [], [];
    ghost var s := StockOf(p2, pp);
    NoneDrawn(p2, v2, pp, vp);
    for i := 0 to count
      invariant ds == DrawnDabits(s, i)
      invariant Linked(p2, v2) && Linked(pp, vp) && |ds| == i && AuthDabits(p2.r, v2.delta, vp.delta, ds, ks)
      invariant Consistent(p2.r, ds)
      invariant p2.used == old(p2.used) + i && v2.used == old(v2.used) + i && pp.used == old(pp.used) + i
      invariant vp.used == old(vp.used) + i
    {
      var b, bk := RunRandom(p2, v2);
      var x: Fp := BitNat(p2.r, b.x);
      var d, dk := RunInput(pp, vp, [x]);
      OneInput(d, x);
      DrawnBit(p2, b);
      NextDabit(p2, v2, pp, vp, s, i, b, d[0]);
      ds, ks := ds + [DabitP(b, d[0])], ks + [DabitV(bk, dk[0])];
    }
  }

  lemma OneInput(d: seq<MacProver<Fp>>, x: Fp)
    requires Values(d) == [x]
    ensures |d| == 1 && d[0].x == x
  {
    assert |d| == |Values(d)| && Values(d)[0] == d[0].x;
  }

  /** (value + bit) / 2 */
  function HalveP(value: MacProver<Fp>, bit: nat): MacProver<Fp>
    requires P % 2 == 1
  {
    MulCstP(FP, (P + 1) / 2, AddCstP(FP, ToFp(bit), value))
  }

  function HalveV(delta: Fp, key: MacVerifier<Fp>, bit: nat): MacVerifier<Fp>
    requires P % 2 == 1
  {
    MulCstV(FP, (P + 1) / 2, AddCstV(FP, delta, ToFp(bit), key))
  }

  lemma HalveAuth(delta: Fp, value: MacProver<Fp>, key: MacVerifier<Fp>, bit: nat)
    requires P % 2 == 1 && Auth(FP, delta, value, key)
    ensures Auth(FP, delta, HalveP(value, bit), HalveV(delta, key, bit))
    ensures HalveP(value, bit).x == HalfOf(FpAdd(ToFp(bit), value.x))
  {
    FpIsRing();
    AddCstAuth(FP, delta, ToFp(bit), value, key);
    MulCstAuth(FP, delta, (P + 1) / 2, AddCstP(FP, ToFp(bit), value), AddCstV(FP, delta, ToFp(bit), key));
  }

  /** The integer behind row j: the mask bit plus the selected bits. */
  ghost function RowTotal<F>(r: Ring<F>, m: DabitP<F>, e: seq<bool>, ds: seq<DabitP<F>>): nat
    requires |e| == |ds|
  {
    BitNat(r, m.bit.x) + Selected(e, BitNats(r, ds))
  }

  lemma BitNatsSmall<F>(r: Ring<F>, ds: seq<DabitP<F>>)
    ensures forall i :: 0 <= i < |ds| ==> BitNats(r, ds)[i] <= 1
  {
  }

  /** What an honest row sends to the range check is exactly half the row's total, rounded up. */
  lemma HonestHalf<F(!new)>(r: Ring<F>, m: DabitP<F>, e: seq<bool>, ds: seq<DabitP<F>>)
    requires IsBinary(r) && |e| == |ds| && Consistent(r, ds) && Consistent(r, [m]) && CheckParamsV2(|ds|) && P % 2 == 1
    ensures var bit := BitNat(r, PickP(r, m.bit, e, DabitBitsP(ds)).x);
            var s := RowTotal(r, m, e, ds);
            && bit == s % 2 && (s + 1) / 2 < P
            && HalfOf(FpAdd(ToFp(bit), PickP(FP, m.value, e, DabitValuesP(ds)).x)) == (s + 1) / 2
  {
    hide PickP, Selected, BitNat, ToFp, HalfOf, IsPrime, IsBinary, FpAdd, BitNats, ValueNats, Mismatches, CheckParamsV2;
    assert ([m])[0] == m;
    ConsistentIsBits(r, ds);
    RowOpening(r, m, e, ds);
    BitNatsSmall(r, ds);
    SelectedBound(e, BitNats(r, ds));
    HalvedSum(|ds|, BitNat(r, m.bit.x), Selected(e, BitNats(r, ds)));
  }

  /** All rows, halved with the opened parities, as values for the range check. */
  method HalveRows<F(==)>(r: Ring<F>, delta: Fp, opened2: seq<F>, values: seq<MacProver<Fp>>,
                          keys: seq<MacVerifier<Fp>>)
    returns (cs: seq<seq<Fp>>, ks: seq<HdKey<Fp>>, ghost xs: seq<Fp>)
    requires P % 2 == 1 && |opened2| == |values| && AuthAll(FP, delta, values, keys)
    ensures |cs| == |values| && HdList(delta, cs, ks, xs)
    ensures forall j :: 0 <= j < |cs| ==> cs[j] == FromMac(FP, HalveP(values[j], BitNat(r, opened2[j])))
    ensures forall j :: 0 <= j < |xs| ==> xs[j] == HalfOf(FpAdd(ToFp(BitNat(r, opened2[j])), values[j].x))
  {
    hide Auth, HalveP, HalveV, ToFp, HalfOf, FpAdd, Hd, BitNat, IsPrime, FromMac, KeyFromMac;
    cs, ks, xs := [], [], [];
    for j := 0 to |values|
      invariant |cs| == j && HdList(delta, cs, ks, xs)
      invariant forall i :: 0 <= i < j ==> cs[i] == FromMac(FP, HalveP(values[i], BitNat(r, opened2[i])))
      invariant forall i :: 0 <= i < j ==> xs[i] == HalfOf(FpAdd(ToFp(BitNat(r, opened2[i])), values[i].x))
    {
      var bit := BitNat(r, opened2[j]);
      HalveAuth(delta, values[j], keys[j], bit);
      var h, l := HalveP(values[j], bit), HalveV(delta, keys[j], bit);
      FromMacHd(delta, h, l);
      cs, ks, xs := cs + [FromMac(FP, h)], ks + [KeyFromMac(FP, l)], xs + [h.x];
    }
  }

  ghost predicate TotalsInRange<F>(r: Ring<F>, ms: seq<DabitP<F>>, es: seq<seq<bool>>, ds: seq<DabitP<F>>, lower: int,
                                   upper: int)
    requires |ms| == |es| && forall j :: 0 <= j < |es| ==> |es[j]| == |ds|
  {
    forall j :: 0 <= j < |es| ==> InRange(ToFp((RowTotal(r, ms[j], es[j], ds) + 1) / 2), lower, upper)
  }

  ghost predicate RowLengths<F>(ms: seq<DabitP<F>>, es: seq<seq<bool>>, ds: seq<DabitP<F>>) {
    |ms| == |es| && forall j :: 0 <= j < |es| ==> |es[j]| == |ds|
  }

  /** The opened parities: each mask bit plus the selected bits. */
  ghost function Parities<F>(r: Ring<F>, ms: seq<DabitP<F>>, es: seq<seq<bool>>, ds: seq<DabitP<F>>): (xs: seq<F>)
    requires RowLengths(ms, es, ds)
    ensures |xs| == |es|
  {
    seq(|es|, j requires 0 <= j < |es| => PickP(r, ms[j].bit, es[j], DabitBitsP(ds)).x)
  }

  /** The values that the range proof is about: each mask plus the selected values, halved with the opened parity. */
  ghost function HalvedRows<F>(r: Ring<F>, ms: seq<DabitP<F>>, es: seq<seq<bool>>,
                               ds: seq<DabitP<F>>): (cs: seq<seq<Fp>>)
    requires RowLengths(ms, es, ds) && P % 2 == 1
    ensures |cs| == |es|
  {
    seq(|es|, j requires 0 <= j < |es| =>
      FromMac(FP, HalveP(PickP(FP, ms[j].value, es[j], DabitValuesP(ds)), BitNat(r, Parities(r, ms, es, ds)[j]))))
  }

  /** The consistency check of version 2: the message of the range proof is about exactly these values. */
  method RunRowsV2<F(!new, ==)>(p2: FComProver<F>, v2: FComVerifier<F>, pp: FComProver<Fp>, vp: FComVerifier<Fp>,
                                hash2: seq<F> -> seq<F>, chi: Fp, lower: int, upper: int, ds: seq<DabitP<F>>,
                                ks: seq<DabitV<F>>, ms: seq<DabitP<F>>, mks: seq<DabitV<F>>, es: seq<seq<bool>>)
    returns (ok: bool, opened2: seq<F>, range: seq<Fp>)
    requires Linked(p2, v2) && Linked(pp, vp) && pp.r == FP && IsBinary(p2.r) && Hashes(hash2) && P % 2 == 1
    requires AuthDabits(p2.r, v2.delta, vp.delta, ds, ks) && AuthDabits(p2.r, v2.delta, vp.delta, ms, mks)
    requires |ms| == |es| && es != [] && forall j :: 0 <= j < |es| ==> |es[j]| == |ds|
    requires Consistent(p2.r, ds) && Consistent(p2.r, ms) && CheckParamsV2(|ds|)
    requires {p2 as object, v2} !! {pp as object, vp}
    modifies pp, vp
    ensures Linked(p2, v2) && Linked(pp, vp)
    ensures ok <==> Prepare(lower, upper).Some? && TotalsInRange(p2.r, ms, es, ds, lower, upper)
    ensures opened2 == Parities(p2.r, ms, es, ds)
    ensures ok ==>
              var (m, a, c) := Prepare(lower, upper).value;
              && m > 0 && Proper(HalvedRows(p2.r, ms, es, ds))
              && range == RangeMessage(pp.basis, pp.supply, old(pp.used), chi, m, RANGE_MAX_CHUNK_SIZE,
                                       Shifts(HalvedRows(p2.r, ms, es, ds), a, c))
    ensures ok ==>
              var m := Prepare(lower, upper).value.0;
              m > 0
              && pp.used == old(pp.used) + RangeVoles(2 * |es|, m, RANGE_MAX_CHUNK_SIZE, |pp.basis|)
              && vp.used == old(vp.used) + RangeVoles(2 * |es|, m, RANGE_MAX_CHUNK_SIZE, |pp.basis|)
  {
    hide Linked, Auth, PickP, BitNat, AuthDabits, Consistent, InRange, Prepare, ToFp, HalfOf, RowTotal, IsPrime, HdList,
         RangeVoles, RangeMessage, FromMac, HalveP, Hashes, IsBinary, CheckParamsV2, Parities;
    var r := p2.r;
    var values, keys;
    opened2, values, keys := RunParities(p2, v2, vp.delta, hash2, ds, ks, ms, mks, es);
    var cs, hs;
    ghost var xs;
    cs, hs, xs := HalveRows(r, vp.delta, opened2, values, keys);
    ListLengths(vp.delta, cs, hs, xs);
    forall j | 0 <= j < |es| ensures xs[j] == ToFp((RowTotal(r, ms[j], es[j], ds) + 1) / 2) {
      ParityAt(r, ms, es, ds, j);
      HonestTotal(r, ms, es, ds, j);
    }
    assert cs == HalvedRows(r, ms, es, ds);
    ok, range := RunCheckRange(pp, vp, chi, lower, upper, RANGE_MAX_CHUNK_SIZE, cs, hs, xs);
  }

  lemma ParityAt<F(!new)>(r: Ring<F>, ms: seq<DabitP<F>>, es: seq<seq<bool>>, ds: seq<DabitP<F>>, j: nat)
    requires RowLengths(ms, es, ds) && j < |es|
    ensures |es[j]| == |ds| && Parities(r, ms, es, ds)[j] == PickP(r, ms[j].bit, es[j], DabitBitsP(ds)).x
  {
  }

  /** All rows summed up in both fields, and the binary ones opened. */
  method RunParities<F(!new, ==)>(p2: FComProver<F>, v2: FComVerifier<F>, dp: Fp, hash2: seq<F> -> seq<F>,
                                  ds: seq<DabitP<F>>, ks: seq<DabitV<F>>, ms: seq<DabitP<F>>, mks: seq<DabitV<F>>,
                                  es: seq<seq<bool>>)
    returns (opened2: seq<F>, values: seq<MacProver<Fp>>, keys: seq<MacVerifier<Fp>>)
    requires Linked(p2, v2) && IsBinary(p2.r) && Hashes(hash2) && RowLengths(ms, es, ds)
    requires AuthDabits(p2.r, v2.delta, dp, ds, ks) && AuthDabits(p2.r, v2.delta, dp, ms, mks)
    ensures opened2 == Parities(p2.r, ms, es, ds) && |values| == |es| && AuthAll(FP, dp, values, keys)
    ensures forall j :: 0 <= j < |es| ==> values[j] == PickP(FP, ms[j].value, es[j], DabitValuesP(ds))
  {
    hide Linked, Auth, PickP, PickV, AuthDabits, Hashes;
    var r := p2.r;
    SameSizes(r, v2.delta, dp, ds, ks);
    SameSizes(r, v2.delta, dp, ms, mks);
    var bits;
    bits, values := PickRows(r, ms, es, ds);
    var bitKeys;
    bitKeys, keys := PickKeyRows(r, mks, es, ks);
    assert IsRing(r);
    hide IsBinary, IsRing;
    forall j | 0 <= j < |es|
      ensures Auth(r, v2.delta, bits[j], bitKeys[j]) && Auth(FP, dp, values[j], keys[j])
    {
      PickedAuth(r, v2.delta, dp, ms, mks, es, ds, ks, j);
    }
    var ok2;
    opened2, ok2 := RunOpenValues(p2, v2, hash2, bits, bitKeys);
  }

  lemma HonestTotal<F(!new)>(r: Ring<F>, ms: seq<DabitP<F>>, es: seq<seq<bool>>, ds: seq<DabitP<F>>, j: nat)
    requires IsBinary(r) && RowLengths(ms, es, ds) && j < |ms| && Consistent(r, ds) && Consistent(r, ms)
    requires CheckParamsV2(|ds|) && P % 2 == 1
    ensures var bit := BitNat(r, PickP(r, ms[j].bit, es[j], DabitBitsP(ds)).x);
            HalfOf(FpAdd(ToFp(bit), PickP(FP, ms[j].value, es[j], DabitValuesP(ds)).x))
            == ToFp((RowTotal(r, ms[j], es[j], ds) + 1) / 2)
  {
    hide PickP, BitNat, HalfOf, ToFp, RowTotal, IsBinary, FpAdd, CheckParamsV2;
    OneConsistent(r, ms, j);
    HonestHalf(r, ms[j], es[j], ds);
    ToFpSmall((RowTotal(r, ms[j], es[j], ds) + 1) / 2);
  }

  lemma OneConsistent<F>(r: Ring<F>, ms: seq<DabitP<F>>, j: nat)
    requires Consistent(r, ms) && j < |ms|
    ensures Consistent(r, [ms[j]])
  {
  }

  /** `estimate_voles`, version 2, from the bit length of the range. */
  function EstimateV2(n: nat, rangeBits: nat, degree: nat): (nat, nat)
    requires rangeBits > 0
  {
    (n + SEC_PARAM_KAPPA,
     n + SEC_PARAM_KAPPA + degree
     + if RANGE_MAX_CHUNK_SIZE >= rangeBits then (Pow2(rangeBits) - 1) * degree
       else (rangeBits + RANGE_MAX_CHUNK_SIZE - 1) / RANGE_MAX_CHUNK_SIZE * 2 * SEC_PARAM_KAPPA
           + (Pow2(RANGE_MAX_CHUNK_SIZE) - 1) * degree)
  }

  /** The range proof's share of the estimate is what it takes. */
  lemma EstimateV2Exact(n: nat, rangeBits: nat, degree: nat)
    requires rangeBits > 0
    ensures EstimateV2(n, rangeBits, degree).1
         == n + SEC_PARAM_KAPPA + degree + RangeVoles(2 * SEC_PARAM_KAPPA, rangeBits, RANGE_MAX_CHUNK_SIZE, degree)
  {
    hide Pow2;
    TimesIsProduct(ChecksDegree(rangeBits, RANGE_MAX_CHUNK_SIZE) - 1, degree);
    var k := NumChunks(rangeBits, RANGE_MAX_CHUNK_SIZE);
    TimesIsProduct(2 * SEC_PARAM_KAPPA, k);
    NumChunksBounds(rangeBits, RANGE_MAX_CHUNK_SIZE);
    TimesIsProduct(k, RANGE_MAX_CHUNK_SIZE);
    TimesIsProduct(k - 1, RANGE_MAX_CHUNK_SIZE);
    DivModUnique(rangeBits + RANGE_MAX_CHUNK_SIZE - 1, RANGE_MAX_CHUNK_SIZE, k,
                 rangeBits + RANGE_MAX_CHUNK_SIZE - 1 - k * RANGE_MAX_CHUNK_SIZE);
  }

  /** What the prover sends: the opened parities, the range proof's message, the message about d * (1 - d) = 0. */
  datatype DabitTrace2<F> = DabitTrace2(xs: seq<F>, range: seq<Fp>, sent: ProductProof<Fp>)

  ghost predicate Traced2<F>(s: Stock<F>, chiRange: Fp, chi: Fp, n: nat, t: nat, es: seq<seq<bool>>,
                             ds: seq<DabitP<F>>, ms: seq<DabitP<F>>, trace: DabitTrace2<F>)
  {
    var (lower, upper) := RangeBounds(n, t);
    && RowLengths(ms, es, ds) && P % 2 == 1 && Prepare(lower, upper).Some?
    && var (m, a, c) := Prepare(lower, upper).value;
       var cs := HalvedRows(s.r, ms, es, ds);
       var used := n + SEC_PARAM_KAPPA;
       && trace.xs == Parities(s.r, ms, es, ds) && m > 0 && Proper(cs)
       && trace.range == RangeMessage(s.basisP, s.sp, s.up + used, chiRange, m, RANGE_MAX_CHUNK_SIZE, Shifts(cs, a, c))
       && trace.sent == HonestProof(FP, s.basisP, chi, BinaryTriplesP(ds),
                                    s.Prime(used + RangeVoles(2 * |es|, m, RANGE_MAX_CHUNK_SIZE, |s.basisP|),
                                            |s.basisP|))
  }

  lemma TraceIs2<F>(s: Stock<F>, chiRange: Fp, chi: Fp, n: nat, t: nat, es: seq<seq<bool>>, ds: seq<DabitP<F>>,
                    ms: seq<DabitP<F>>, trace: DabitTrace2<F>)
    requires RowLengths(ms, es, ds) && P % 2 == 1 && Prepare(RangeBounds(n, t).0, RangeBounds(n, t).1).Some?
    requires Proper(HalvedRows(s.r, ms, es, ds)) && trace.xs == Parities(s.r, ms, es, ds) && |es| == SEC_PARAM_KAPPA
    requires var (m, a, c) := Prepare(RangeBounds(n, t).0, RangeBounds(n, t).1).value;
             var used := n + SEC_PARAM_KAPPA;
             && m > 0
             && trace.range == RangeMessage(s.basisP, s.sp, s.up + used, chiRange, m, RANGE_MAX_CHUNK_SIZE,
                                            Shifts(HalvedRows(s.r, ms, es, ds), a, c))
             && trace.sent == HonestProof(FP, s.basisP, chi, BinaryTriplesP(ds),
                                          s.Prime(used + RangeVoles(2 * |es|, m, RANGE_MAX_CHUNK_SIZE, |s.basisP|),
                                                  |s.basisP|))
    ensures Traced2(s, chiRange, chi, n, t, es, ds, ms, trace)
  {
    hide Prepare, RangeMessage, HonestProof, HalvedRows, Parities, RangeVoles, Delivered;
  }

  /** `gen_dabits`, version 2: the daBits are consistent, an honest run is accepted exactly when the bounds are admitted
      and every halved total lies between them, and it takes the VOLEs that are estimated. */
  method RunGenDabitsV2<F(!new, ==)>(p2: FComProver<F>, v2: FComVerifier<F>, pp: FComProver<Fp>, vp: FComVerifier<Fp>,
                                     hash2: seq<F> -> seq<F>, chiRange: Fp, chi: Fp, n: nat, t: nat, es: seq<seq<bool>>)
    returns (ok: bool, ds: seq<DabitP<F>>, ks: seq<DabitV<F>>, ghost ms: seq<DabitP<F>>, trace: DabitTrace2<F>)
    requires Linked(p2, v2) && Linked(pp, vp) && pp.r == FP && IsBinary(p2.r) && DrawsBits(p2) && Hashes(hash2)
    requires P % 2 == 1 && Challenges(n, es)
    requires {p2 as object, v2} !! {pp as object, vp}
    modifies p2, v2, pp, vp
    ensures Linked(p2, v2) && Linked(pp, vp)
    ensures !CheckParamsV2(n) ==> !ok
    ensures CheckParamsV2(n) ==>
              && |ds| == n && |ms| == |es| && AuthDabits(p2.r, v2.delta, vp.delta, ds, ks) && Consistent(p2.r, ds)
              && var (lower, upper) := RangeBounds(n, t);
                 (ok <==> Prepare(lower, upper).Some? && TotalsInRange(p2.r, ms, es, ds, lower, upper))
    ensures CheckParamsV2(n) ==>
      ds == DrawnDabits(old(StockOf(p2, pp)), n) && ms == DrawnDabits(old(StockOf(p2, pp)).After(n, n), SEC_PARAM_KAPPA)
    ensures ok ==> Traced2(old(StockOf(p2, pp)), chiRange, chi, n, t, es, ds, ms, trace)
    ensures ok ==>
              var (lower, upper) := RangeBounds(n, t);
              var rangeBits := Prepare(lower, upper).value.0;
              rangeBits > 0
              && var (n2, np) := EstimateV2(n, rangeBits, |pp.basis|);
                 && p2.used == old(p2.used) + n2 && v2.used == old(v2.used) + n2
                 && pp.used == old(pp.used) + np && vp.used == old(vp.used) + np
  {
    hide Linked, Auth, IsBit, BitNat, AuthDabits, CheckParamsV2, AllCorrect, PowerSum, Defects, IsRing, Prepare,
         TotalsInRange, RangeVoles, EstimateV2, IsPrime, Consistent, DrawsBits, IsBinary, DrawnDabits, RangeMessage,
         HonestProof, Parities, HalvedRows, Hashes, Delivered, Traced2, AuthTriples, BitValued, RangeBounds;
    ghost var s := StockOf(p2, pp);
    ms, trace := [], DabitTrace2([], [], ProductProof(0, 0));
    if !CheckParamsV2(n) {
      return false, [], [], [], trace;
    }
    var (lower, upper) := RangeBounds(n, t);
    ds, ks := RunDabits(p2, v2, pp, vp, n);
    var masks, mks := RunMasksV2(p2, v2, pp, vp, SEC_PARAM_KAPPA);
    ms := masks;
    var rows, xs, range := RunRowsV2(p2, v2, pp, vp, hash2, chiRange, lower, upper, ds, ks, masks, mks, es);
    SameSizes(p2.r, v2.delta, vp.delta, ds, ks);
    if !rows {
      return false, ds, ks, ms, trace;
    }
    var binary, sent := RunBinaryCheck(p2.r, v2.delta, pp, vp, chi, ds, ks);
    ok, trace := binary, DabitTrace2(xs, range, sent);
    TraceIs2(s, chiRange, chi, n, t, es, ds, ms, trace);
    EstimateV2Exact(n, Prepare(lower, upper).value.0, |pp.basis|);
    FirstPart(n, Prepare(lower, upper).value.0, |pp.basis|);
  }

  lemma FirstPart(n: nat, rangeBits: nat, degree: nat)
    requires rangeBits > 0
    ensures EstimateV2(n, rangeBits, degree).0 == n + SEC_PARAM_KAPPA
  {
    hide Pow2;
  }
}
