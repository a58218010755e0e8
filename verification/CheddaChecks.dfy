/** The generator as both parties step it, and the polynomial checks that its outputs go into. */
module CheddaChecks {
  import opened Options
  import opened Arith
  import opened Rings
  import opened Sums
  import opened PrimeField
  import opened Bits
  import opened Polynomials
  import opened Homcom
  import opened HdQuicksilver
  import opened HdMacs
  import opened HdValues
  import opened CheddaPrg
  import opened CheddaMaj7

  datatype Pred = Tspa | Xor4Maj7
  {
    function Loc(): nat {
      if Tspa? then 5 else 11
    }

    function D2(): nat {
      if Tspa? then 2 else 4
    }

    function DP(): nat {
      if Tspa? then 3 else 12
    }

    /** The majority polynomial is only given modulo 2^61 - 1. */
    predicate Available() {
      Xor4Maj7? ==> P == MERSENNE_61
    }
  }

  // ---- one output bit, on both sides and in both fields ----

  ghost function OutP2<F>(pred: Pred, r: Ring<F>, xs: seq<seq<F>>): seq<F>
    requires |xs| == pred.Loc() && forall i :: 0 <= i < |xs| ==> xs[i] != []
  {
    if pred.Tspa? then TspaP2(r, xs) else X4P2(r, xs)
  }

  ghost function OutV2<F>(pred: Pred, r: Ring<F>, delta: F, ks: seq<HdKey<F>>): HdKey<F>
    requires |ks| == pred.Loc()
  {
    if pred.Tspa? then TspaV2(r, delta, ks) else X4V2(r, delta, ks)
  }

  ghost function OutPp(pred: Pred, xs: seq<seq<Fp>>): seq<Fp>
    requires |xs| == pred.Loc() && forall i :: 0 <= i < |xs| ==> xs[i] != []
  {
    if pred.Tspa? then TspaPp(FP, xs) else X4Pp(xs)
  }

  ghost function OutVp(pred: Pred, delta: Fp, ks: seq<HdKey<Fp>>): HdKey<Fp>
    requires |ks| == pred.Loc()
  {
    if pred.Tspa? then TspaVp(FP, delta, ks) else X4Vp(delta, ks)
  }

  ghost function OutValue<F>(pred: Pred, r: Ring<F>, vs: seq<F>): F
    requires |vs| == pred.Loc()
  {
    if pred.Tspa? then TspaValue2(r, vs) else X4Value2(r, vs, AddFirst(r, r.zero, vs[4..], 0))
  }

  /** For any seed of matching bits and any index tuple, the two expansions carry the same bit, have degrees exactly
      D2 and DP on both sides, and every prover polynomial at delta is the verifier's mac. */
  lemma OutputsAgree<F(!new)>(pred: Pred, r: Ring<F>, d2: F, dp: Fp, sigma: seq<nat>,
                              p2: seq<MacProver<F>>, v2: seq<MacVerifier<F>>, pp: seq<MacProver<Fp>>,
                              vp: seq<MacVerifier<Fp>>)
    requires pred.Available() && IsBinary(r) && SigmaOk(sigma, pred.Loc(), |p2|)
    requires AuthAll(r, d2, p2, v2) && AuthAll(FP, dp, pp, vp) && SameBits(r, Values(p2), Values(pp))
    ensures |p2| == |v2| == |pp| == |vp|
    ensures var x := OutValue(pred, r, PickedValues(p2, sigma));
            && IsBit(r, x)
            && Hd(r, d2, OutP2(pred, r, PickedP(r, p2, sigma)), OutV2(pred, r, d2, PickedV(r, v2, sigma)), x, pred.D2())
            && Hd(FP, dp, OutPp(pred, PickedP(FP, pp, sigma)), OutVp(pred, dp, PickedV(FP, vp, sigma)), BitNat(r, x),
                  pred.DP())
  {
    hide IsBit, Hd, TspaP2, TspaV2, TspaPp, TspaVp, X4P2, X4V2, X4Pp, X4Vp, TspaValue2, X4Value2, X4ValueP, TspaInner,
         XorValue, AddFirst, OnesP, BitNat;
    SameSize(r, p2, pp);
    FpIsRing();
    PickedHd(r, d2, p2, v2, sigma);
    PickedHd(FP, dp, pp, vp, sigma);
    PickedSame(r, p2, pp, sigma);
    var xs, ys := PickedValues(p2, sigma), PickedValues(pp, sigma);
    hide IsRing, AuthAll, HdAll, PickedValues, SameBits;
    if pred.Tspa? {
      TspaAuth2(r, d2, PickedP(r, p2, sigma), PickedV(r, v2, sigma), xs);
      TspaAuthP(FP, dp, PickedP(FP, pp, sigma), PickedV(FP, vp, sigma), ys);
      TspaAgrees(r, xs, ys);
    } else {
      X4Auth2(r, d2, PickedP(r, p2, sigma), PickedV(r, v2, sigma), xs);
      X4AuthP(dp, PickedP(FP, pp, sigma), PickedV(FP, vp, sigma), ys);
      X4Agrees(r, xs, ys);
    }
  }

  lemma SameSize<F>(r: Ring<F>, p2: seq<MacProver<F>>, pp: seq<MacProver<Fp>>)
    requires SameBits(r, Values(p2), Values(pp))
    ensures |p2| == |pp|
  {
    assert |Values(p2)| == |p2| && |Values(pp)| == |pp|;
  }

  lemma PickedSame<F(!new)>(r: Ring<F>, p2: seq<MacProver<F>>, pp: seq<MacProver<Fp>>, sigma: seq<nat>)
    requires |p2| == |pp| && SameBits(r, Values(p2), Values(pp)) && SigmaOk(sigma, |sigma|, |p2|)
    ensures SameBits(r, PickedValues(p2, sigma), PickedValues(pp, sigma))
    ensures forall i :: 0 <= i < |sigma| ==> PickedValues(pp, sigma)[i] <= 1
  {
    hide IsBit, BitNat;
    forall i | 0 <= i < |sigma|
      ensures IsBit(r, PickedValues(p2, sigma)[i])
      ensures PickedValues(pp, sigma)[i] == BitNat(r, PickedValues(p2, sigma)[i])
    {
      assert Values(p2)[sigma[i]] == p2[sigma[i]].x && Values(pp)[sigma[i]] == pp[sigma[i]].x;
    }
  }

  // ---- the generator ----

  /** `sigma(i)` is the index tuple drawn for output i after seeding; it does not depend on the seed bits. */
  class LocalPrg {
    const pred: Pred
    const seedLength: nat
    const outputLength: nat
    const sigma: nat -> seq<nat>
    var count: nat

    ghost predicate Valid()
      reads this
    {
      && pred.Available() && outputLength > seedLength && count <= outputLength
      && forall i :: SigmaOk(sigma(i), pred.Loc(), seedLength)
    }

    constructor (pred: Pred, seedLength: nat, outputLength: nat, sigma: nat -> seq<nat>)
      requires pred.Available() && outputLength > seedLength && forall i :: SigmaOk(sigma(i), pred.Loc(), seedLength)
      ensures Valid() && count == 0
      ensures this.pred == pred && this.seedLength == seedLength && this.outputLength == outputLength
      ensures this.sigma == sigma
    {
      this.pred, this.seedLength, this.outputLength, this.sigma := pred, seedLength, outputLength, sigma;
      count := 0;
    }

    function Remaining(): nat
      requires Valid()
      reads this
    {
      outputLength - count
    }

    method Reset()
      requires Valid()
      modifies this
      ensures Valid() && count == 0
    {
      count := 0;
    }

    method NextProver<F(!new, ==)>(r: Ring<F>, seed2: seq<MacProver<F>>, seedP: seq<MacProver<Fp>>)
      returns (res: Option<(seq<F>, seq<Fp>)>)
      requires Valid() && IsRing(r) && |seed2| == |seedP| == seedLength
      modifies this
      ensures Valid() && (res.None? <==> old(count) == outputLength)
      ensures res.Some? ==>
                && count == old(count) + 1
                && res.value
                   == (OutP2(pred, r, PickedP(r, seed2, sigma(old(count)))),
                       OutPp(pred, PickedP(FP, seedP, sigma(old(count)))))
    {
      hide IsRing, TspaP2, X4P2, TspaPp, X4Pp;
      if count == outputLength {
        return None;
      }
      var s := sigma(count);
      count := count + 1;
      var out;
      if pred.Tspa? {
        out := ExpandTspaProver2(r, s, seed2);
      } else {
        out := ExpandX4Prover2(r, s, seed2);
      }
      var c2 := out.Coefficients();
      var cp := ExpandP(s, seedP);
      res := Some((c2, cp));
    }

    method ExpandP(s: seq<nat>, seedP: seq<MacProver<Fp>>) returns (c: seq<Fp>)
      requires SigmaOk(s, pred.Loc(), |seedP|)
      ensures c == OutPp(pred, PickedP(FP, seedP, s))
    {
      FpIsRing();
      hide IsRing, TspaPp, X4Pp;
      var out;
      if pred.Tspa? {
        out := ExpandTspaProverP(FP, s, seedP);
      } else {
        out := ExpandX4ProverP(s, seedP);
      }
      c := out.Coefficients();
    }

    method NextProverP(seedP: seq<MacProver<Fp>>) returns (res: Option<seq<Fp>>)
      requires Valid() && |seedP| == seedLength
      modifies this
      ensures Valid() && (res.None? <==> old(count) == outputLength)
      ensures res.Some? ==> count == old(count) + 1 && res.value == OutPp(pred, PickedP(FP, seedP, sigma(old(count))))
    {
      if count == outputLength {
        return None;
      }
      count := count + 1;
      var c := ExpandP(sigma(count - 1), seedP);
      res := Some(c);
    }

    method NextVerifier<F(!new, ==)>(r: Ring<F>, d2: F, dp: Fp, seed2: seq<MacVerifier<F>>, seedP: seq<MacVerifier<Fp>>)
      returns (res: Option<(HdKey<F>, HdKey<Fp>)>)
      requires Valid() && IsRing(r) && |seed2| == |seedP| == seedLength
      modifies this
      ensures Valid() && (res.None? <==> old(count) == outputLength)
      ensures res.Some? ==>
                && count == old(count) + 1
                && res.value
                   == (OutV2(pred, r, d2, PickedV(r, seed2, sigma(old(count)))),
                       OutVp(pred, dp, PickedV(FP, seedP, sigma(old(count)))))
    {
      hide IsRing, TspaV2, X4V2, TspaVp, X4Vp;
      if count == outputLength {
        return None;
      }
      var s := sigma(count);
      count := count + 1;
      var out;
      if pred.Tspa? {
        out := ExpandTspaVerifier2(r, d2, s, seed2);
      } else {
        out := ExpandX4Verifier2(r, d2, s, seed2);
      }
      var kp := ExpandV(dp, s, seedP);
      res := Some((HdKey(out.mac, out.qsDegree), kp));
    }

    method ExpandV(dp: Fp, s: seq<nat>, seedP: seq<MacVerifier<Fp>>) returns (k: HdKey<Fp>)
      requires SigmaOk(s, pred.Loc(), |seedP|)
      ensures k == OutVp(pred, dp, PickedV(FP, seedP, s))
    {
      FpIsRing();
      hide IsRing, TspaVp, X4Vp;
      var out;
      if pred.Tspa? {
        out := ExpandTspaVerifierP(FP, dp, s, seedP);
      } else {
        out := ExpandX4VerifierP(dp, s, seedP);
      }
      k := HdKey(out.mac, out.qsDegree);
    }

    method NextVerifierP(dp: Fp, seedP: seq<MacVerifier<Fp>>) returns (res: Option<HdKey<Fp>>)
      requires Valid() && |seedP| == seedLength
      modifies this
      ensures Valid() && (res.None? <==> old(count) == outputLength)
      ensures res.Some? ==>
        count == old(count) + 1 && res.value == OutVp(pred, dp, PickedV(FP, seedP, sigma(old(count))))
    {
      if count == outputLength {
        return None;
      }
      count := count + 1;
      var k := ExpandV(dp, sigma(count - 1), seedP);
      res := Some(k);
    }
  }

  // ---- checks whose members all have the same degree ----

  ghost predicate AllOfDegree<F>(cs: seq<seq<F>>, d: nat) {
    forall i :: 0 <= i < |cs| ==> |cs[i]| == d + 1
  }

  /** Both states, so far: authenticated values of degree d, all zero. */
  ghost predicate QsOk<F(!new)>(sp: QSStateProver<F>, sv: QSStateVerifier<F>, d: nat)
    reads sp, sp.state, sv, sv.state
  {
    && sp.Valid() && sv.Valid() && sp.r == sv.r && sp.chi == sv.chi && d >= 1
    && HdAuthAll(sp.r, sv.delta, sp.checked, sv.checked) && AllOfDegree(sp.checked, d)
    && AllZero(sp.r, ClearValues(sp.checked))
  }

  /** One more zero of degree d. */
  method RunCheckZero<F(!new, ==)>(sp: QSStateProver<F>, sv: QSStateVerifier<F>, ghost d: nat, m: HDMacProver<F>,
                                   k: HDMacVerifier<F>)
    requires QsOk(sp, sv, d) && m.Valid() && k.Valid() && m.r == k.r == sp.r && m != sp.state && k != sv.state
    requires Hd(sp.r, sv.delta, m.Full(), k.Key(), sp.r.zero, d)
    modifies sp, sp.state, sv, sv.state
    ensures QsOk(sp, sv, d) && sp.state == old(sp.state) && sv.state == old(sv.state)
    ensures sp.checked == old(sp.checked) + [m.Full()] && sv.checked == old(sv.checked) + [k.Key()]
  {
    hide QsState, QsKey, Eval, IsRing, HDMacProver.Valid, HDMacVerifier.Valid;
    ghost var cs, c := sp.checked, m.Full();
    assert AllZero(sp.r, ClearValues(cs + [c])) by {
      assert ClearValues(cs + [c]) == ClearValues(cs) + [Value(c)];
    }
    sp.CheckZero(m);
    sv.CheckZero(k);
  }

  /** The end of such a check: accepted, at the price of (d - 1) * |basis| random values on each side. */
  method RunFinish<F(!new, ==)>(sp: QSStateProver<F>, sv: QSStateVerifier<F>, ghost d: nat, p: FComProver<F>,
                                v: FComVerifier<F>) returns (ok: bool, proof: seq<F>)
    requires QsOk(sp, sv, d) && Linked(p, v) && sp.r == p.r && sv.delta == v.delta && (sp.checked != [] || d == 1)
    modifies sp, sv, p, v
    ensures ok && Linked(p, v)
    ensures proof == DeliveredProof(p.r, p.basis, p.supply, old(p.used), sp.chi, old(sp.checked))
    ensures p.used == old(p.used) + Times(d - 1, |p.basis|) && v.used == old(v.used) + Times(d - 1, |p.basis|)
  {
    hide QsState, QsKey, Eval, Linked, IsRing;
    QsDegree(sp, d);
    ok, proof := RunFinalize(sp, sv, p, v);
  }

  lemma QsDegree<F(!new)>(sp: QSStateProver<F>, d: nat)
    requires sp.Valid() && d >= 1 && AllOfDegree(sp.checked, d) && (sp.checked != [] || d == 1)
    ensures sp.state.qsDegree == d
  {
    QsStateDegree(sp.r, sp.chi, sp.checked, d);
    if sp.checked != [] {
      assert |sp.checked[0]| == d + 1;
    }
    assert |sp.state.Full()| == sp.state.qsDegree + 1;
  }
}
