/** Pairs of a prover's polynomial and a verifier's key that belong together, with their clear value and degree. */
module HdValues {
  import opened Rings
  import opened Sums
  import opened Polynomials
  import opened Homcom
  import opened HdQuicksilver

  /** The two halves belong together, carry x, and have degree d. */
  ghost predicate Hd<F>(r: Ring<F>, delta: F, c: seq<F>, k: HdKey<F>, x: F, d: nat) {
    HdAuth(r, delta, c, k) && Value(c) == x && k.degree == d
  }

  lemma AddHd<F(!new)>(r: Ring<F>, delta: F, a: seq<F>, k: HdKey<F>, x: F, d: nat, b: seq<F>, l: HdKey<F>, y: F, e: nat)
    requires IsRing(r) && Hd(r, delta, a, k, x, d) && Hd(r, delta, b, l, y, e)
    ensures Hd(r, delta, HdAdd(r, a, b), KeyAdd(r, delta, k, l), r.add(x, y), Max(d, e))
  {
    hide Eval, HdAdd, IsRing, Value;
    HdAddAuth(r, delta, a, b, k, l);
  }

  lemma SubHd<F(!new)>(r: Ring<F>, delta: F, a: seq<F>, k: HdKey<F>, x: F, d: nat, b: seq<F>, l: HdKey<F>, y: F, e: nat)
    requires IsRing(r) && Hd(r, delta, a, k, x, d) && Hd(r, delta, b, l, y, e)
    ensures Hd(r, delta, HdSub(r, a, b), KeySub(r, delta, k, l), r.Sub(x, y), Max(d, e))
  {
    hide Eval, HdSub, IsRing, Value;
    HdSubAuth(r, delta, a, b, k, l);
  }

  lemma MulHd<F(!new)>(r: Ring<F>, delta: F, a: seq<F>, k: HdKey<F>, x: F, d: nat, b: seq<F>, l: HdKey<F>, y: F, e: nat)
    requires IsRing(r) && Hd(r, delta, a, k, x, d) && Hd(r, delta, b, l, y, e)
    ensures Hd(r, delta, MulSeq(r, a, b), KeyMul(r, k, l), r.mul(x, y), d + e)
  {
    hide Eval, MulSeq, IsRing, Value;
    HdMulAuth(r, delta, a, b, k, l);
  }

  function XorValue<F>(r: Ring<F>, x: F, y: F): F {
    r.add(r.add(x, y), r.mul(MinusTwo(r), r.mul(x, y)))
  }

  lemma XorHd<F(!new)>(r: Ring<F>, delta: F, a: seq<F>, k: HdKey<F>, x: F, d: nat, b: seq<F>, l: HdKey<F>, y: F, e: nat)
    requires IsRing(r) && Hd(r, delta, a, k, x, d) && Hd(r, delta, b, l, y, e)
    ensures Hd(r, delta, HdXor(r, a, b), KeyXor(r, delta, k, l), XorValue(r, x, y), d + e)
  {
    hide Eval, HdXor, IsRing, Value;
    HdXorAuth(r, delta, a, b, k, l);
  }

  lemma AddCstHd<F(!new)>(r: Ring<F>, delta: F, a: seq<F>, k: HdKey<F>, x: F, d: nat, y: F)
    requires IsRing(r) && Hd(r, delta, a, k, x, d)
    ensures Hd(r, delta, HdAddCst(r, a, y), KeyAddCst(r, delta, k, y), r.add(x, y), d)
  {
    hide Eval, HdAddCst, IsRing, Value;
    HdAddCstAuth(r, delta, a, y, k);
  }

  lemma SubCstHd<F(!new)>(r: Ring<F>, delta: F, a: seq<F>, k: HdKey<F>, x: F, d: nat, y: F)
    requires IsRing(r) && Hd(r, delta, a, k, x, d)
    ensures Hd(r, delta, HdSubCst(r, a, y), KeySubCst(r, delta, k, y), r.Sub(x, y), d)
  {
    hide Eval, HdSubCst, IsRing, Value;
    HdSubCstAuth(r, delta, a, y, k);
  }

  lemma ScaleHd<F(!new)>(r: Ring<F>, delta: F, a: seq<F>, k: HdKey<F>, x: F, d: nat, y: F)
    requires IsRing(r) && Hd(r, delta, a, k, x, d)
    ensures Hd(r, delta, ScaleSeq(r, y, a), KeyScale(r, y, k), r.mul(y, x), d)
  {
    hide Eval, ScaleSeq, IsRing, Value;
    HdScaleAuth(r, delta, y, a, k);
  }

  // ---- lists of checked values ----

  /** The two parties' lists belong together, and all clear values are zero exactly when `zero` holds. */
  ghost predicate Mean<F>(r: Ring<F>, delta: F, ps: seq<seq<F>>, ks: seq<HdKey<F>>, zero: bool) {
    HdAuthAll(r, delta, ps, ks) && Proper(ps) && (AllZero(r, ClearValues(ps)) <==> zero)
  }

  lemma MeanEmpty<F(!new)>(r: Ring<F>, delta: F, ps: seq<seq<F>>, ks: seq<HdKey<F>>, zero: bool)
    requires ps == [] && ks == [] && zero
    ensures Mean(r, delta, ps, ks, zero)
  {
  }

  lemma MeanAppend<F(!new)>(r: Ring<F>, delta: F, ps: seq<seq<F>>, ks: seq<HdKey<F>>, zero: bool,
                            ps': seq<seq<F>>, ks': seq<HdKey<F>>, zero': bool)
    requires Mean(r, delta, ps, ks, zero) && Mean(r, delta, ps', ks', zero')
    ensures Mean(r, delta, ps + ps', ks + ks', zero && zero')
  {
    hide HdAuth, AllZero, Value;
    assert ClearValues(ps + ps') == ClearValues(ps) + ClearValues(ps');
    AllZeroAppend(r, ClearValues(ps), ClearValues(ps'));
  }

  lemma AllZeroAppend<F(!new)>(r: Ring<F>, a: seq<F>, b: seq<F>)
    ensures AllZero(r, a + b) <==> AllZero(r, a) && AllZero(r, b)
  {
    assert forall i :: 0 <= i < |a| ==> (a + b)[i] == a[i];
    assert forall i :: 0 <= i < |b| ==> (a + b)[|a| + i] == b[i];
  }

  lemma MeanOne<F(!new)>(r: Ring<F>, delta: F, p: seq<F>, k: HdKey<F>)
    requires HdAuth(r, delta, p, k)
    ensures Mean(r, delta, [p], [k], Value(p) == r.zero)
  {
    hide Eval;
    assert ClearValues([p])[0] == Value(p);
  }

  /** All these challenges end in acceptance, each with a mask of the prover's choice. */
  ghost predicate Accepting<F>(r: Ring<F>, delta: F, polys: seq<seq<F>>, keys: seq<HdKey<F>>, mask: F -> seq<F>,
                               chis: set<F>)
    requires Proper(polys)
  {
    forall chi :: chi in chis ==>
      && |mask(chi)| == |QsState(r, chi, polys)| - 1
      && Eval(r, Proof(r, QsState(r, chi, polys), mask(chi)), delta)
         == r.add(QsKey(r, delta, chi, keys).mac, Eval(r, mask(chi), delta))
  }

  /** A list that does not mean zero passes for at most as many challenges as it has members. */
  lemma FewAccepting<F(!new)>(r: Ring<F>, delta: F, polys: seq<seq<F>>, keys: seq<HdKey<F>>, mask: F -> seq<F>,
                              chis: set<F>)
    requires IsDomain(r) && delta != r.zero && Mean(r, delta, polys, keys, false)
    requires Accepting(r, delta, polys, keys, mask, chis)
    ensures |chis| <= |polys|
  {
    hide IsDomain, Eval, QsState, QsKey, Proof, HdAuth;
    FewChallengesAccept(r, delta, polys, keys, mask, chis);
  }
}
