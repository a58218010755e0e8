/** The batch check of daBits as the two parties run it. */
module FdabitRun {
  import opened Arith
  import opened Rings
  import opened Sums
  import opened PrimeField
  import opened Homcom
  import opened QuickSilver
  import opened Fdabit

  /** A prover's random values in both fields, from the next unused ones on. */
  datatype Stock<!F> = Stock(r: Ring<F>, basis2: seq<F>, s2: nat -> seq<MacProver<F>>, u2: nat, basisP: seq<Fp>,
                             sp: nat -> seq<MacProver<Fp>>, up: nat)
  {
    function After(m2: nat, mp: nat): Stock<F> {
      this.(u2 := u2 + m2, up := up + mp)
    }

    /** The next n values of each field, after m have been taken. */
    ghost function Binary(m: nat, n: nat): seq<MacProver<F>> {
      Delivered(s2, u2 + m, n)
    }

    ghost function Prime(m: nat, n: nat): seq<MacProver<Fp>> {
      Delivered(sp, up + m, n)
    }
  }

  ghost function StockOf<F(!new)>(p2: FComProver<F>, pp: FComProver<Fp>): Stock<F>
    reads p2, pp
  {
    Stock(p2.r, p2.basis, p2.supply, p2.used, pp.basis, pp.supply, pp.used)
  }

  method ProverSelect<F>(r: Ring<F>, start: MacProver<F>, e: seq<bool>, ms: seq<MacProver<F>>)
    returns (acc: MacProver<F>)
    requires |e| == |ms|
    ensures acc == SelectP(r, start, e, ms)
  {
    acc := start;
    for i := 0 to |ms|
      invariant acc == SelectP(r, start, e[..i], ms[..i])
    {
      acc := AddP(r, acc, MulCstP(r, Choice(r, e[i]), ms[i]));
      assert e[..i + 1][..i] == e[..i] && ms[..i + 1][..i] == ms[..i];
    }
    assert e[..|ms|] == e && ms[..|ms|] == ms;
  }

  method VerifierSelect<F>(r: Ring<F>, start: MacVerifier<F>, e: seq<bool>, ks: seq<MacVerifier<F>>)
    returns (acc: MacVerifier<F>)
    requires |e| == |ks|
    ensures acc == SelectV(r, start, e, ks)
  {
    acc := start;
    for i := 0 to |ks|
      invariant acc == SelectV(r, start, e[..i], ks[..i])
    {
      acc := AddV(r, acc, MulCstV(r, Choice(r, e[i]), ks[i]));
      assert e[..i + 1][..i] == e[..i] && ks[..i + 1][..i] == ks[..i];
    }
    assert e[..|ks|] == e && ks[..|ks|] == ks;
  }

  method ProverWeigh(start: MacProver<Fp>, ms: seq<MacProver<Fp>>) returns (acc: MacProver<Fp>)
    ensures acc == WeighP(start, ms)
  {
    var twos: Fp := 1;
    acc := start;
    ToFpSmall(1);
    for i := 0 to |ms|
      invariant twos == ToFp(Pow2(i)) && acc == WeighP(start, ms[..i])
    {
      acc := AddP(FP, acc, MulCstP(FP, twos, ms[i]));
      AddHom(Pow2(i), Pow2(i));
      twos := FpAdd(twos, twos);
      assert ms[..i + 1][..i] == ms[..i];
    }
    assert ms[..|ms|] == ms;
  }

  method VerifierWeigh(start: MacVerifier<Fp>, ks: seq<MacVerifier<Fp>>) returns (acc: MacVerifier<Fp>)
    ensures acc == WeighV(start, ks)
  {
    var twos: Fp := 1;
    acc := start;
    ToFpSmall(1);
    for i := 0 to |ks|
      invariant twos == ToFp(Pow2(i)) && acc == WeighV(start, ks[..i])
    {
      acc := AddV(FP, acc, MulCstV(FP, twos, ks[i]));
      AddHom(Pow2(i), Pow2(i));
      twos := FpAdd(twos, twos);
      assert ks[..i + 1][..i] == ks[..i];
    }
    assert ks[..|ks|] == ks;
  }

  function FieldBitsOf(cs: seq<bool>): (xs: seq<Fp>)
    ensures |xs| == |cs|
  {
    seq(|cs|, i requires 0 <= i < |cs| => if cs[i] then 1 else 0)
  }

  ghost predicate AuthRows(delta: Fp, ms: seq<seq<MacProver<Fp>>>, ks: seq<seq<MacVerifier<Fp>>>) {
    |ms| == |ks| && forall k :: 0 <= k < |ms| ==> AuthAll(FP, delta, ms[k], ks[k])
  }

  /** Step 1: the masking bits of every row, as elements of the prime field. */
  method RunMaskBits(p: FComProver<Fp>, v: FComVerifier<Fp>, cs: seq<seq<bool>>, gamma: nat)
    returns (ms: seq<seq<MacProver<Fp>>>, ks: seq<seq<MacVerifier<Fp>>>)
    requires Linked(p, v) && p.r == FP && forall k :: 0 <= k < |cs| ==> |cs[k]| == gamma
    modifies p, v
    ensures Linked(p, v) && AuthRows(v.delta, ms, ks) && |ms| == |cs|
    ensures forall k :: 0 <= k < |cs| ==> Values(ms[k]) == FieldBitsOf(cs[k])
    ensures Flatten(ms) == CommitAll(Flatten(FieldRows(cs)), p.Voles(old(p.used), Times(|cs|, gamma)))
    ensures p.used == old(p.used) + Times(|cs|, gamma) && v.used == old(v.used) + Times(|cs|, gamma)
  {
    hide Linked, Auth, FieldBitsOf, Values, CommitAll, FieldRows, Flatten;
    hide p.Voles;
    ms, ks := [], [];
    NoVoles(p, v);
    NoRows(cs);
    for k := 0 to |cs|
      invariant Linked(p, v) && AuthRows(v.delta, ms, ks) && |ms| == k
      invariant forall j :: 0 <= j < k ==> Values(ms[j]) == FieldBitsOf(cs[j])
      invariant Flatten(ms) == CommitAll(Flatten(FieldRows(cs[..k])), p.Voles(old(p.used), Times(k, gamma)))
      invariant p.used == old(p.used) + Times(k, gamma) && v.used == old(v.used) + Times(k, gamma)
    {
      var m, key := RunInput(p, v, FieldBitsOf(cs[k]));
      MoreVoles(p, v, old(p.used), Times(k, gamma), gamma);
      OneMoreRow(ms, m);
      OneMoreFieldRow(cs, k, gamma);
      CommitAppend(Flatten(FieldRows(cs[..k])), p.Voles(old(p.used), Times(k, gamma)), FieldBitsOf(cs[k]),
                   p.Voles(old(p.used) + Times(k, gamma), gamma));
      ms, ks := ms + [m], ks + [key];
    }
    assert cs[..|cs|] == cs;
  }

  function FieldRows(cs: seq<seq<bool>>): (xs: seq<seq<Fp>>)
    ensures |xs| == |cs|
  {
    seq(|cs|, k requires 0 <= k < |cs| => FieldBitsOf(cs[k]))
  }

  lemma NoRows(cs: seq<seq<bool>>)
    ensures Flatten(FieldRows(cs[..0])) == [] && Flatten<MacProver<Fp>>([]) == [] && CommitAll<Fp>([], []) == []
  {
  }

  lemma OneMoreFieldRow(cs: seq<seq<bool>>, k: nat, n: nat)
    requires k < |cs| && forall j :: 0 <= j < |cs| ==> |cs[j]| == n
    ensures |Flatten(FieldRows(cs[..k]))| == Times(k, n)
    ensures Flatten(FieldRows(cs[..k + 1])) == Flatten(FieldRows(cs[..k])) + FieldBitsOf(cs[k])
  {
    hide FieldBitsOf;
    FlattenLength(FieldRows(cs[..k]), n);
    assert FieldRows(cs[..k + 1]) == FieldRows(cs[..k]) + [FieldBitsOf(cs[k])];
  }

  lemma OneMoreRow<F>(ms: seq<seq<MacProver<F>>>, m: seq<MacProver<F>>)
    ensures Flatten(ms + [m]) == Flatten(ms) + m
  {
    assert (ms + [m])[..|ms|] == ms;
  }

  // ---- step 2: c * (1 - c), one product per masking bit ----

  function OneMinusP(c: MacProver<Fp>): MacProver<Fp> {
    AddCstP(FP, 1, MulCstP(FP, FpNeg(1), c))
  }

  function OneMinusV(delta: Fp, c: MacVerifier<Fp>): MacVerifier<Fp> {
    AddCstV(FP, delta, 1, MulCstV(FP, FpNeg(1), c))
  }

  function Products(ms: seq<MacProver<Fp>>): (xs: seq<Fp>)
    ensures |xs| == |ms|
  {
    seq(|ms|, i requires 0 <= i < |ms| => FpMul(ms[i].x, OneMinusP(ms[i]).x))
  }

  function TriplesOfP(ms: seq<MacProver<Fp>>, products: seq<MacProver<Fp>>): (ts: seq<TripleP<Fp>>)
    requires |ms| == |products|
  {
    seq(|ms|, i requires 0 <= i < |ms| => (ms[i], OneMinusP(ms[i]), products[i]))
  }

  function TriplesOfV(delta: Fp, ks: seq<MacVerifier<Fp>>, products: seq<MacVerifier<Fp>>): (ts: seq<TripleV<Fp>>)
    requires |ks| == |products|
  {
    seq(|ks|, i requires 0 <= i < |ks| => (ks[i], OneMinusV(delta, ks[i]), products[i]))
  }

  function Flatten<T>(rows: seq<seq<T>>): (s: seq<T>) {
    if rows == [] then [] else Flatten(rows[..|rows| - 1]) + rows[|rows| - 1]
  }

  lemma {:induction false} FlattenLength<T>(rows: seq<seq<T>>, n: nat)
    requires forall k :: 0 <= k < |rows| ==> |rows[k]| == n
    ensures |Flatten(rows)| == Times(|rows|, n)
  {
    if rows != [] {
      FlattenLength(rows[..|rows| - 1], n);
    }
  }

  lemma {:induction false} FlattenAuth(delta: Fp, ms: seq<seq<MacProver<Fp>>>, ks: seq<seq<MacVerifier<Fp>>>)
    requires AuthRows(delta, ms, ks)
    ensures AuthAll(FP, delta, Flatten(ms), Flatten(ks))
  {
    hide Auth;
    if ms != [] {
      var n := |ms| - 1;
      FlattenAuth(delta, ms[..n], ks[..n]);
    }
  }

  lemma MaskTriples(delta: Fp, ms: seq<MacProver<Fp>>, ks: seq<MacVerifier<Fp>>, ps: seq<MacProver<Fp>>,
                    vs: seq<MacVerifier<Fp>>)
    requires AuthAll(FP, delta, ms, ks) && AuthAll(FP, delta, ps, vs) && Values(ps) == Products(ms)
    ensures AuthTriples(FP, delta, TriplesOfP(ms, ps), TriplesOfV(delta, ks, vs)) && AllCorrect(FP, TriplesOfP(ms, ps))
  {
    FpIsRing();
    assert |ps| == |Values(ps)| == |ms|;
    forall i | 0 <= i < |ms|
      ensures AuthTriple(FP, delta, TriplesOfP(ms, ps)[i], TriplesOfV(delta, ks, vs)[i])
      ensures ps[i].x == FpMul(ms[i].x, OneMinusP(ms[i]).x)
    {
      assert Values(ps)[i] == ps[i].x;
      MulCstAuth(FP, delta, FpNeg(1), ms[i], ks[i]);
      AddCstAuth(FP, delta, 1, MulCstP(FP, FpNeg(1), ms[i]), MulCstV(FP, FpNeg(1), ks[i]));
    }
  }

  // ---- steps 4 to 8: the rows ----

  method ProverRows<F>(r: Ring<F>, es: seq<seq<bool>>, ds: seq<DabitP<F>>, c1: seq<MacProver<F>>,
                       ms: seq<seq<MacProver<Fp>>>)
    returns (bits: seq<MacProver<F>>, taus: seq<MacProver<Fp>>)
    requires |c1| == |ms| == |es| && forall k :: 0 <= k < |es| ==> |es[k]| == |ds|
    ensures |bits| == |taus| == |es|
    ensures forall k :: 0 <= k < |es| ==> bits[k] == RowBit(r, c1[k], es[k], ds) && taus[k] == RowTau(es[k], ds, ms[k])
  {
    hide SelectP, WeighP;
    bits, taus := [], [];
    for k := 0 to |es|
      invariant |bits| == |taus| == k
      invariant forall j :: 0 <= j < k ==> bits[j] == RowBit(r, c1[j], es[j], ds) && taus[j] == RowTau(es[j], ds, ms[j])
    {
      var bit := ProverSelect(r, c1[k], es[k], DabitBitsP(ds));
      var sum := ProverSelect(FP, MacProver(0, 0), es[k], DabitValuesP(ds));
      var tau := ProverWeigh(sum, ms[k]);
      bits, taus := bits + [bit], taus + [tau];
    }
  }

  function RowKey<F>(r: Ring<F>, c1: MacVerifier<F>, e: seq<bool>, ks: seq<DabitV<F>>): MacVerifier<F>
    requires |e| == |ks|
  {
    SelectV(r, c1, e, DabitBitsV(ks))
  }

  function RowTauKey<F>(e: seq<bool>, ks: seq<DabitV<F>>, ms: seq<MacVerifier<Fp>>): MacVerifier<Fp>
    requires |e| == |ks|
  {
    WeighV(SelectV(FP, MacVerifier(0), e, DabitValuesV(ks)), ms)
  }

  method VerifierRows<F>(r: Ring<F>, es: seq<seq<bool>>, ks: seq<DabitV<F>>, c1: seq<MacVerifier<F>>,
                         ms: seq<seq<MacVerifier<Fp>>>)
    returns (bits: seq<MacVerifier<F>>, taus: seq<MacVerifier<Fp>>)
    requires |c1| == |ms| == |es| && forall k :: 0 <= k < |es| ==> |es[k]| == |ks|
    ensures |bits| == |taus| == |es|
    ensures forall k :: 0 <= k < |es| ==>
      bits[k] == RowKey(r, c1[k], es[k], ks) && taus[k] == RowTauKey(es[k], ks, ms[k])
  {
    hide SelectV, WeighV;
    bits, taus := [], [];
    for k := 0 to |es|
      invariant |bits| == |taus| == k
      invariant forall j :: 0 <= j < k ==>
        bits[j] == RowKey(r, c1[j], es[j], ks) && taus[j] == RowTauKey(es[j], ks, ms[j])
    {
      var bit := VerifierSelect(r, c1[k], es[k], DabitBitsV(ks));
      var sum := VerifierSelect(FP, MacVerifier(0), es[k], DabitValuesV(ks));
      var tau := VerifierWeigh(sum, ms[k]);
      bits, taus := bits + [bit], taus + [tau];
    }
  }

  lemma RowAuth<F(!new)>(r: Ring<F>, d2: F, dp: Fp, e: seq<bool>, ds: seq<DabitP<F>>, ks: seq<DabitV<F>>,
                         c1: MacProver<F>, k1: MacVerifier<F>, ms: seq<MacProver<Fp>>, mks: seq<MacVerifier<Fp>>)
    requires IsRing(r) && AuthDabits(r, d2, dp, ds, ks) && |e| == |ds|
    requires Auth(r, d2, c1, k1) && AuthAll(FP, dp, ms, mks)
    ensures Auth(r, d2, RowBit(r, c1, e, ds), RowKey(r, k1, e, ks))
    ensures Auth(FP, dp, RowTau(e, ds, ms), RowTauKey(e, ks, mks))
  {
    hide SelectP, SelectV, WeighP, WeighV;
    FpIsRing();
    SelectAuth(r, d2, c1, k1, e, DabitBitsP(ds), DabitBitsV(ks));
    MulZero(FP, dp);
    AddZero(FP, 0);
    SelectAuth(FP, dp, MacProver(0, 0), MacVerifier(0), e, DabitValuesP(ds), DabitValuesV(ks));
    WeighAuth(dp, SelectP(FP, MacProver(0, 0), e, DabitValuesP(ds)), SelectV(FP, MacVerifier(0), e, DabitValuesV(ks)),
              ms, mks);
  }

  method ParityTests<F(==)>(r: Ring<F>, bits: seq<F>, taus: seq<Fp>) returns (ok: bool)
    requires |bits| == |taus|
    ensures ok <==> forall k :: 0 <= k < |bits| ==> ParityTest(r, bits[k], taus[k])
  {
    ok := true;
    for k := 0 to |bits|
      invariant ok <==> forall j :: 0 <= j < k ==> ParityTest(r, bits[j], taus[j])
    {
      ok := ok && ParityTest(r, bits[k], taus[k]);
    }
  }

  /** Opening toward the verifier: accepted, with the true values. */
  method RunOpenValues<F(!new, ==)>(p: FComProver<F>, v: FComVerifier<F>, hash: seq<F> -> seq<F>,
                                    ps: seq<MacProver<F>>, vs: seq<MacVerifier<F>>) returns (xs: seq<F>, ok: bool)
    requires Linked(p, v) && AuthAll(p.r, v.delta, ps, vs) && Hashes(hash)
    ensures ok && xs == Values(ps)
  {
    var m;
    xs, m := p.Open(hash, ps);
    ok := v.Open(hash, vs, xs, m);
    OpenExact(p.r, v.delta, hash(xs), ps, vs, xs);
  }

  function FirstBits<F>(r: Ring<F>, cs: seq<seq<bool>>): (xs: seq<F>)
    requires forall k :: 0 <= k < |cs| ==> cs[k] != []
    ensures |xs| == |cs|
  {
    seq(|cs|, k requires 0 <= k < |cs| => Choice(r, cs[k][0]))
  }

  /** The shapes of the random inputs: one masking row and one selection per repetition. */
  ghost predicate Shapes(n: nat, cs: seq<seq<bool>>, es: seq<seq<bool>>) {
    && |cs| == |es| == FDABIT_SECURITY_PARAMETER
    && forall k :: 0 <= k < |cs| ==> |cs[k]| == Gamma(n) && |es[k]| == n
  }

  /** Every selection hits an even number of mismatched daBits. */
  ghost predicate EvenMismatches<F>(r: Ring<F>, ds: seq<DabitP<F>>, es: seq<seq<bool>>)
    requires forall k :: 0 <= k < |es| ==> |es[k]| == |ds|
  {
    forall k :: 0 <= k < |es| ==> Mismatches(es[k], BitNats(r, ds), ValueNats(ds)) % 2 == 0
  }

  /** What a row opens in the binary field: its first masking bit plus the selected bits. */
  ghost function MaskedBit<F>(r: Ring<F>, c: seq<bool>, e: seq<bool>, ds: seq<DabitP<F>>): F
    requires c != [] && |e| == |ds|
  {
    RowBit(r, MacProver(Choice(r, c[0]), r.zero), e, ds).x
  }

  /** What it opens in the prime field: the number in its masking bits plus the selected values. */
  ghost function MaskedSum<F>(c: seq<bool>, e: seq<bool>, ds: seq<DabitP<F>>): Fp
    requires |e| == |ds|
  {
    ToFp(Selected(e, ValueNats(ds)) + MaskSum(c))
  }

  ghost predicate RowsOpened<F>(r: Ring<F>, ds: seq<DabitP<F>>, cs: seq<seq<bool>>, es: seq<seq<bool>>, rs: seq<F>,
                                ts: seq<Fp>)
    requires |cs| == |es| && forall k :: 0 <= k < |cs| ==> cs[k] != [] && |es[k]| == |ds|
  {
    && |rs| == |ts| == |es|
    && forall k :: 0 <= k < |es| ==> rs[k] == MaskedBit(r, cs[k], es[k], ds) && ts[k] == MaskedSum(cs[k], es[k], ds)
  }

  lemma RowOutcome<F(!new)>(r: Ring<F>, e: seq<bool>, ds: seq<DabitP<F>>, cs: seq<bool>, ms: seq<MacProver<Fp>>,
                            c1: MacProver<F>)
    requires IsBinary(r) && |e| == |ds| && CheckParameters(|ds|, |cs|) && |cs| == Gamma(|ds|)
    requires MasksHold(r, cs, ms, c1)
    ensures var bit, tau := RowBit(r, c1, e, ds).x, RowTau(e, ds, ms).x;
            && bit == MaskedBit(r, cs, e, ds) && tau == MaskedSum(cs, e, ds)
            && (BitValued(r, ds) ==>
                  (ParityTest(r, bit, tau) <==> Mismatches(e, BitNats(r, ds), ValueNats(ds)) % 2 == 0))
            && (Consistent(r, ds) ==> ParityTest(r, bit, tau))
  {
    hide RowTau, Gamma, CheckParameters, Mismatches, IsBinary, ParityTest, BitValued, Consistent;
    RowTauValue(r, e, ds, cs, ms, c1);
    SelectStart(r, c1, MacProver(Choice(r, cs[0]), r.zero), e, DabitBitsP(ds));
    hide MasksHold;
    if BitValued(r, ds) {
      ParityExact(r, e, ds, cs, ms, c1);
    }
    if Consistent(r, ds) {
      ConsistentPass(r, e, ds, cs, ms, c1);
    }
  }

  /** The clear value of a selection depends on the clear start only. */
  lemma {:induction false} SelectStart<F(!new)>(r: Ring<F>, p: MacProver<F>, q: MacProver<F>, e: seq<bool>,
                                                ms: seq<MacProver<F>>)
    requires |e| == |ms| && p.x == q.x
    ensures SelectP(r, p, e, ms).x == SelectP(r, q, e, ms).x
  {
    if e != [] {
      var n := |e| - 1;
      SelectStart(r, p, q, e[..n], ms[..n]);
    }
  }

  method RunRows<F(!new, ==)>(p2: FComProver<F>, v2: FComVerifier<F>, pp: FComProver<Fp>, vp: FComVerifier<Fp>,
                              hash2: seq<F> -> seq<F>, hashP: seq<Fp> -> seq<Fp>,
                              ds: seq<DabitP<F>>, ks: seq<DabitV<F>>, cs: seq<seq<bool>>, es: seq<seq<bool>>,
                              c1: seq<MacProver<F>>, k1: seq<MacVerifier<F>>,
                              ms: seq<seq<MacProver<Fp>>>, mks: seq<seq<MacVerifier<Fp>>>)
    returns (ok: bool, rs: seq<F>, ts: seq<Fp>)
    requires Linked(p2, v2) && Linked(pp, vp) && pp.r == FP && IsBinary(p2.r)
    requires Hashes(hash2) && Hashes(hashP)
    requires AuthDabits(p2.r, v2.delta, vp.delta, ds, ks) && Shapes(|ds|, cs, es) && CheckParameters(|ds|, Gamma(|ds|))
    requires |c1| == |cs| && AuthAll(p2.r, v2.delta, c1, k1) && Values(c1) == FirstBits(p2.r, cs)
    requires |ms| == |cs| && AuthRows(vp.delta, ms, mks)
    requires forall k :: 0 <= k < |cs| ==> Values(ms[k]) == FieldBitsOf(cs[k])
    ensures BitValued(p2.r, ds) ==> (ok <==> EvenMismatches(p2.r, ds, es))
    ensures Consistent(p2.r, ds) ==> ok
    ensures RowsOpened(p2.r, ds, cs, es, rs, ts)
  {
    assert IsRing(p2.r);
    hide RowBit, RowTau, RowKey, RowTauKey, Gamma, CheckParameters, Auth, Hashes, ParityTest, Mismatches, Linked,
         MaskedBit, MaskedSum, IsBinary, BitValued, Consistent, FieldBitsOf, FirstBits, BitNats, ValueNats, RowsOpened,
         EvenMismatches, AuthDabits;
    var r := p2.r;
    var bits, taus := ProverRows(r, es, ds, c1, ms);
    var bitKeys, tauKeys := VerifierRows(r, es, ks, k1, mks);
    forall k | 0 <= k < |es|
      ensures Auth(r, v2.delta, bits[k], bitKeys[k]) && Auth(FP, vp.delta, taus[k], tauKeys[k])
    {
      RowAuth(r, v2.delta, vp.delta, es[k], ds, ks, c1[k], k1[k], ms[k], mks[k]);
    }
    var okR, okT;
    rs, okR := RunOpenValues(p2, v2, hash2, bits, bitKeys);
    ts, okT := RunOpenValues(pp, vp, hashP, taus, tauKeys);
    var parity := ParityTests(r, rs, ts);
    ok := okR && okT && parity;
    RowsVerdict(r, ds, cs, es, c1, ms, rs, ts);
  }

  /** What the opened rows decide. */
  lemma RowsVerdict<F(!new)>(r: Ring<F>, ds: seq<DabitP<F>>, cs: seq<seq<bool>>, es: seq<seq<bool>>,
                             c1: seq<MacProver<F>>, ms: seq<seq<MacProver<Fp>>>, rs: seq<F>, ts: seq<Fp>)
    requires IsBinary(r) && Shapes(|ds|, cs, es) && CheckParameters(|ds|, Gamma(|ds|))
    requires |c1| == |ms| == |rs| == |ts| == |cs| && Values(c1) == FirstBits(r, cs)
    requires forall k :: 0 <= k < |cs| ==> Values(ms[k]) == FieldBitsOf(cs[k])
    requires forall k :: 0 <= k < |cs| ==>
      rs[k] == RowBit(r, c1[k], es[k], ds).x && ts[k] == RowTau(es[k], ds, ms[k]).x
    ensures RowsOpened(r, ds, cs, es, rs, ts)
    ensures BitValued(r, ds) ==>
      ((forall k :: 0 <= k < |rs| ==> ParityTest(r, rs[k], ts[k])) <==> EvenMismatches(r, ds, es))
    ensures Consistent(r, ds) ==> forall k :: 0 <= k < |rs| ==> ParityTest(r, rs[k], ts[k])
  {
    hide RowBit, RowTau, Gamma, CheckParameters, ParityTest, Mismatches, MaskedBit, MaskedSum, IsBinary, BitValued,
         Consistent, MasksHold, FieldBitsOf, FirstBits, BitNats, ValueNats;
    forall k | 0 <= k < |es|
      ensures BitValued(r, ds) ==>
        (ParityTest(r, rs[k], ts[k]) <==> Mismatches(es[k], BitNats(r, ds), ValueNats(ds)) % 2 == 0)
      ensures Consistent(r, ds) ==> ParityTest(r, rs[k], ts[k])
      ensures rs[k] == MaskedBit(r, cs[k], es[k], ds) && ts[k] == MaskedSum(cs[k], es[k], ds)
    {
      MaskRow(r, cs, c1, ms, k);
      RowOutcome(r, es[k], ds, cs[k], ms[k], c1[k]);
    }
  }

  lemma MaskRow<F>(r: Ring<F>, cs: seq<seq<bool>>, c1: seq<MacProver<F>>, ms: seq<seq<MacProver<Fp>>>, k: nat)
    requires k < |cs| == |c1| == |ms| && forall j :: 0 <= j < |cs| ==> cs[j] != []
    requires Values(c1) == FirstBits(r, cs) && Values(ms[k]) == FieldBitsOf(cs[k])
    ensures MasksHold(r, cs[k], ms[k], c1[k])
  {
    assert Values(c1)[k] == c1[k].x;
    assert |ms[k]| == |Values(ms[k])|;
    forall i | 0 <= i < |cs[k]| ensures ms[k][i].x == if cs[k][i] then 1 else 0 {
      assert Values(ms[k])[i] == ms[k][i].x;
    }
  }

  /** All masking bits c as committed with the next random values, each with c * (1 - c). */
  ghost function MaskTriplesOf<F>(s: Stock<F>, cs: seq<seq<bool>>, gamma: nat): seq<TripleP<Fp>> {
    var n := Times(|cs|, gamma);
    var masks := CommitAll(Flatten(FieldRows(cs)), s.Prime(0, n));
    TriplesOfP(masks, CommitAll(Products(masks), s.Prime(n, n)))
  }

  /** What the check takes from the prime field. */
  function FdabitVoles(n: nat, basis: nat): nat {
    2 * Times(FDABIT_SECURITY_PARAMETER, Gamma(n)) + basis
  }

  /** What the prover sends: the opened rows, and the message about the products. */
  datatype FdabitTrace<F> = FdabitTrace(bits: seq<F>, taus: seq<Fp>, sent: ProductProof<Fp>)

  ghost predicate FdabitTraced<F>(s: Stock<F>, chi: Fp, ds: seq<DabitP<F>>, cs: seq<seq<bool>>, es: seq<seq<bool>>,
                                  t: FdabitTrace<F>)
  {
    && Shapes(|ds|, cs, es) && RowsOpened(s.r, ds, cs, es, t.bits, t.taus)
    && t.sent == HonestProof(FP, s.basisP, chi, MaskTriplesOf(s, cs, Gamma(|ds|)),
                             s.Prime(2 * Times(|cs|, Gamma(|ds|)), |s.basisP|))
  }

  /** The whole check: refused outright for too many daBits; otherwise, for bit-valued daBits it accepts exactly
      when every selection hits an even number of mismatched ones, so consistent daBits always pass. */
  method RunFdabit<F(!new, ==)>(p2: FComProver<F>, v2: FComVerifier<F>, pp: FComProver<Fp>, vp: FComVerifier<Fp>,
                                hash2: seq<F> -> seq<F>, hashP: seq<Fp> -> seq<Fp>, chi: Fp,
                                ds: seq<DabitP<F>>, ks: seq<DabitV<F>>, cs: seq<seq<bool>>, es: seq<seq<bool>>)
    returns (ok: bool, trace: FdabitTrace<F>)
    requires Linked(p2, v2) && Linked(pp, vp) && pp.r == FP && IsBinary(p2.r)
    requires Hashes(hash2) && Hashes(hashP)
    requires AuthDabits(p2.r, v2.delta, vp.delta, ds, ks) && Shapes(|ds|, cs, es)
    requires {p2 as object, v2} !! {pp as object, vp}
    modifies p2, v2, pp, vp
    ensures Linked(p2, v2) && Linked(pp, vp)
    ensures !CheckParameters(|ds|, Gamma(|ds|)) ==> !ok
    ensures CheckParameters(|ds|, Gamma(|ds|)) ==>
      FdabitTraced(old(StockOf(p2, pp)), chi, ds, cs, es, trace)
    ensures CheckParameters(|ds|, Gamma(|ds|)) && BitValued(p2.r, ds) ==> (ok <==> EvenMismatches(p2.r, ds, es))
    ensures CheckParameters(|ds|, Gamma(|ds|)) && Consistent(p2.r, ds) ==> ok
    ensures CheckParameters(|ds|, Gamma(|ds|)) ==>
              var n2, np := FDABIT_SECURITY_PARAMETER, FdabitVoles(|ds|, |pp.basis|);
              && p2.used == old(p2.used) + n2 && v2.used == old(v2.used) + n2
              && pp.used == old(pp.used) + np && vp.used == old(vp.used) + np
  {
    hide Gamma, CheckParameters, AuthDabits, Linked, BitValued, Consistent, IsBinary, EvenMismatches, Hashes,
         FdabitTraced, Shapes;
    if !CheckParameters(|ds|, Gamma(|ds|)) {
      return false, FdabitTrace([], [], ProductProof(0, 0));
    }
    ok, trace := RunAdmitted(p2, v2, pp, vp, hash2, hashP, chi, ds, ks, cs, es);
  }

  /** The check itself, for a number of daBits that is admitted. */
  method RunAdmitted<F(!new, ==)>(p2: FComProver<F>, v2: FComVerifier<F>, pp: FComProver<Fp>, vp: FComVerifier<Fp>,
                                  hash2: seq<F> -> seq<F>, hashP: seq<Fp> -> seq<Fp>, chi: Fp,
                                  ds: seq<DabitP<F>>, ks: seq<DabitV<F>>, cs: seq<seq<bool>>, es: seq<seq<bool>>)
    returns (ok: bool, trace: FdabitTrace<F>)
    requires Linked(p2, v2) && Linked(pp, vp) && pp.r == FP && IsBinary(p2.r)
    requires Hashes(hash2) && Hashes(hashP) && CheckParameters(|ds|, Gamma(|ds|))
    requires AuthDabits(p2.r, v2.delta, vp.delta, ds, ks) && Shapes(|ds|, cs, es)
    requires {p2 as object, v2} !! {pp as object, vp}
    modifies p2, v2, pp, vp
    ensures Linked(p2, v2) && Linked(pp, vp) && FdabitTraced(old(StockOf(p2, pp)), chi, ds, cs, es, trace)
    ensures BitValued(p2.r, ds) ==> (ok <==> EvenMismatches(p2.r, ds, es))
    ensures Consistent(p2.r, ds) ==> ok
    ensures var n2, np := FDABIT_SECURITY_PARAMETER, FdabitVoles(|ds|, |pp.basis|);
            && p2.used == old(p2.used) + n2 && v2.used == old(v2.used) + n2
            && pp.used == old(pp.used) + np && vp.used == old(vp.used) + np
  {
    hide Gamma, CheckParameters, Auth, Mismatches, AuthDabits, Linked, BitValued, Consistent, Times, Flatten, PowerSum,
         FieldRows, FirstBits, Values, CommitAll, Products, TriplesOfP, TriplesOfV, RowsOpened, HonestProof, AllCorrect,
         AuthTriples, IsBinary, EvenMismatches, AuthRows, AuthAll, Hashes, FieldBitsOf, FdabitTraced, Shapes, Defects;
    ghost var s := StockOf(p2, pp);
    ShapesAre(|ds|, cs, es);
    var r := p2.r;
    var ms, mks, flat, flatKeys, ps, pks := RunMasks(pp, vp, cs, Gamma(|ds|));
    var c1, k1 := RunInput(p2, v2, FirstBits(r, cs));
    assert |c1| == |Values(c1)|;
    var rows, rs, ts := RunRows(p2, v2, pp, vp, hash2, hashP, ds, ks, cs, es, c1, k1, ms, mks);
    var products, sent := RunCheckMultiply(pp, vp, chi, TriplesOfP(flat, ps), TriplesOfV(vp.delta, flatKeys, pks));
    ok, trace := rows && products, FdabitTrace(rs, ts, sent);
    TracedFrom(s, chi, ds, cs, es, flat, ps, trace);
  }

  lemma ShapesAre(n: nat, cs: seq<seq<bool>>, es: seq<seq<bool>>)
    requires Shapes(n, cs, es)
    ensures |cs| == |es| == FDABIT_SECURITY_PARAMETER
    ensures forall k :: 0 <= k < |cs| ==> |cs[k]| == Gamma(n) && |es[k]| == n && cs[k] != []
  {
  }

  lemma TracedFrom<F>(s: Stock<F>, chi: Fp, ds: seq<DabitP<F>>, cs: seq<seq<bool>>, es: seq<seq<bool>>,
                      flat: seq<MacProver<Fp>>, ps: seq<MacProver<Fp>>, t: FdabitTrace<F>)
    requires Shapes(|ds|, cs, es) && RowsOpened(s.r, ds, cs, es, t.bits, t.taus) && |flat| == |ps|
    requires var n := Times(|cs|, Gamma(|ds|));
             && flat == CommitAll(Flatten(FieldRows(cs)), s.Prime(0, n))
             && ps == CommitAll(Products(flat), s.Prime(n, n))
             && t.sent == HonestProof(FP, s.basisP, chi, TriplesOfP(flat, ps), s.Prime(2 * n, |s.basisP|))
    ensures FdabitTraced(s, chi, ds, cs, es, t)
  {
  }

  /** The masking bits and their products c * (1 - c), committed. */
  method RunMasks(p: FComProver<Fp>, v: FComVerifier<Fp>, cs: seq<seq<bool>>, gamma: nat)
    returns (ms: seq<seq<MacProver<Fp>>>, ks: seq<seq<MacVerifier<Fp>>>, flat: seq<MacProver<Fp>>,
             flatKeys: seq<MacVerifier<Fp>>, ps: seq<MacProver<Fp>>, pks: seq<MacVerifier<Fp>>)
    requires Linked(p, v) && p.r == FP && forall k :: 0 <= k < |cs| ==> |cs[k]| == gamma
    modifies p, v
    ensures Linked(p, v) && AuthRows(v.delta, ms, ks) && |ms| == |cs|
    ensures forall k :: 0 <= k < |cs| ==> Values(ms[k]) == FieldBitsOf(cs[k])
    ensures |flat| == |flatKeys| == |ps| == |pks| && AllCorrect(FP, TriplesOfP(flat, ps))
    ensures AuthTriples(FP, v.delta, TriplesOfP(flat, ps), TriplesOfV(v.delta, flatKeys, pks))
    ensures var n := Times(|cs|, gamma);
            && flat == CommitAll(Flatten(FieldRows(cs)), p.Voles(old(p.used), n))
            && ps == CommitAll(Products(flat), p.Voles(old(p.used) + n, n))
            && p.used == old(p.used) + 2 * n && v.used == old(v.used) + 2 * n
  {
    hide Auth, Linked, Times, Flatten, FieldRows, Values, CommitAll, Products, TriplesOfP, TriplesOfV, AllCorrect,
         AuthTriples, FieldBitsOf;
    ms, ks := RunMaskBits(p, v, cs, gamma);
    assert forall k :: 0 <= k < |cs| ==> |ms[k]| == |Values(ms[k])| == gamma;
    flat, flatKeys := Flatten(ms), Flatten(ks);
    FlattenAuth(v.delta, ms, ks);
    FlattenLength(ms, gamma);
    ps, pks := RunInput(p, v, Products(flat));
    assert |ps| == |Values(ps)|;
    MaskTriples(v.delta, flat, flatKeys, ps, pks);
  }
}
