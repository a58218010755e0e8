/** Authenticated values of higher degree: the prover holds a polynomial, the verifier its value at delta.
    A prover value is viewed as its full coefficient sequence, of length degree + 1; the clear value is
    the top coefficient. */
module HdQuicksilver {
  import Arith
  import opened Rings
  import opened RingNormaliser
  import opened Sums
  import opened Polynomials
  import opened Homcom

  datatype HdKey<F> = HdKey(mac: F, degree: nat)

  ghost predicate HdAuth<F>(r: Ring<F>, delta: F, c: seq<F>, k: HdKey<F>) {
    |c| == k.degree + 1 && k.degree >= 1 && Eval(r, c, delta) == k.mac
  }

  function Value<F>(c: seq<F>): F
    requires c != []
  {
    c[|c| - 1]
  }

  // ---- the operations as functions ----

  function Max(a: nat, b: nat): nat {
    if a >= b then a else b
  }

  /** Multiplication by the power of X that brings the length to n. */
  function Align<F>(r: Ring<F>, c: seq<F>, n: nat): seq<F>
    requires |c| <= n
  {
    Zeros(r, n - |c|) + c
  }

  function HdAdd<F>(r: Ring<F>, a: seq<F>, b: seq<F>): seq<F> {
    var n := Max(|a|, |b|);
    AddSeq(r, Align(r, a, n), Align(r, b, n))
  }

  function HdSub<F>(r: Ring<F>, a: seq<F>, b: seq<F>): seq<F> {
    var n := Max(|a|, |b|);
    SubSeq(r, Align(r, a, n), Align(r, b, n))
  }

  function HdAddCst<F>(r: Ring<F>, a: seq<F>, k: F): seq<F>
    requires a != []
  {
    a[|a| - 1 := r.add(a[|a| - 1], k)]
  }

  function HdSubCst<F>(r: Ring<F>, a: seq<F>, k: F): seq<F>
    requires a != []
  {
    a[|a| - 1 := r.Sub(a[|a| - 1], k)]
  }

  function MinusTwo<F>(r: Ring<F>): F {
    r.add(r.neg(r.one), r.neg(r.one))
  }

  function HdXor<F>(r: Ring<F>, a: seq<F>, b: seq<F>): seq<F>
    requires a != [] && b != []
  {
    HdAdd(r, HdAdd(r, a, b), ScaleSeq(r, MinusTwo(r), MulSeq(r, a, b)))
  }

  function FromMac<F>(r: Ring<F>, p: MacProver<F>): seq<F> {
    [r.neg(p.m), p.x]
  }

  function KeyLift<F>(r: Ring<F>, delta: F, k: HdKey<F>, d: nat): F
    requires k.degree <= d
  {
    r.mul(k.mac, Pow(r, delta, d - k.degree))
  }

  function KeyAdd<F>(r: Ring<F>, delta: F, a: HdKey<F>, b: HdKey<F>): HdKey<F> {
    var d := Max(a.degree, b.degree);
    HdKey(r.add(KeyLift(r, delta, a, d), KeyLift(r, delta, b, d)), d)
  }

  function KeySub<F>(r: Ring<F>, delta: F, a: HdKey<F>, b: HdKey<F>): HdKey<F> {
    var d := Max(a.degree, b.degree);
    HdKey(r.Sub(KeyLift(r, delta, a, d), KeyLift(r, delta, b, d)), d)
  }

  function KeyAddCst<F>(r: Ring<F>, delta: F, a: HdKey<F>, k: F): HdKey<F> {
    HdKey(r.add(a.mac, r.mul(k, Pow(r, delta, a.degree))), a.degree)
  }

  function KeySubCst<F>(r: Ring<F>, delta: F, a: HdKey<F>, k: F): HdKey<F> {
    HdKey(r.Sub(a.mac, r.mul(k, Pow(r, delta, a.degree))), a.degree)
  }

  function KeyMul<F>(r: Ring<F>, a: HdKey<F>, b: HdKey<F>): HdKey<F> {
    HdKey(r.mul(a.mac, b.mac), a.degree + b.degree)
  }

  function KeyScale<F>(r: Ring<F>, k: F, a: HdKey<F>): HdKey<F> {
    HdKey(r.mul(k, a.mac), a.degree)
  }

  function KeyXor<F>(r: Ring<F>, delta: F, a: HdKey<F>, b: HdKey<F>): HdKey<F> {
    KeyAdd(r, delta, KeyAdd(r, delta, a, b), KeyScale(r, MinusTwo(r), KeyMul(r, a, b)))
  }

  function KeyFromMac<F>(r: Ring<F>, v: MacVerifier<F>): HdKey<F> {
    HdKey(r.neg(v.k), 1)
  }

  lemma KeyLiftSame<F(!new)>(r: Ring<F>, delta: F, k: HdKey<F>)
    requires IsRing(r)
    ensures KeyLift(r, delta, k, k.degree) == k.mac
  {
    MulOne(r, k.mac);
  }

  // ---- what the operations keep and what they do to the clear value ----

  lemma AlignAuth<F(!new)>(r: Ring<F>, delta: F, c: seq<F>, k: HdKey<F>, d: nat)
    requires IsRing(r) && HdAuth(r, delta, c, k) && k.degree <= d
    ensures Eval(r, Align(r, c, d + 1), delta) == KeyLift(r, delta, k, d)
    ensures Value(Align(r, c, d + 1)) == Value(c)
  {
    EvalShift(r, d - k.degree, c, delta);
    MulComm(r, k.mac, Pow(r, delta, d - k.degree));
  }

  lemma FromMacAuth<F(!new)>(r: Ring<F>, delta: F, p: MacProver<F>, v: MacVerifier<F>)
    requires IsRing(r) && Auth(r, delta, p, v)
    ensures HdAuth(r, delta, FromMac(r, p), KeyFromMac(r, v)) && Value(FromMac(r, p)) == p.x
  {
    var c := FromMac(r, p);
    assert c[1..][1..] == [];
    assert Eval(r, c[1..], delta) == r.add(p.x, r.mul(delta, r.zero));
    MulZero(r, delta);
    AddZero(r, p.x);
    Identity(r, [delta, v.k, p.x],
             Plus(Minus(Plus(V(1), Times(V(0), V(2)))), Times(V(0), V(2))), Minus(V(1)));
  }

  lemma HdAddAuth<F(!new)>(r: Ring<F>, delta: F, a: seq<F>, b: seq<F>, k: HdKey<F>, l: HdKey<F>)
    requires IsRing(r) && HdAuth(r, delta, a, k) && HdAuth(r, delta, b, l)
    ensures HdAuth(r, delta, HdAdd(r, a, b), KeyAdd(r, delta, k, l))
    ensures Value(HdAdd(r, a, b)) == r.add(Value(a), Value(b))
  {
    hide Eval, Pow;
    var d := Max(k.degree, l.degree);
    AlignAuth(r, delta, a, k, d);
    AlignAuth(r, delta, b, l, d);
    EvalAdd(r, Align(r, a, d + 1), Align(r, b, d + 1), delta);
  }

  lemma HdSubAuth<F(!new)>(r: Ring<F>, delta: F, a: seq<F>, b: seq<F>, k: HdKey<F>, l: HdKey<F>)
    requires IsRing(r) && HdAuth(r, delta, a, k) && HdAuth(r, delta, b, l)
    ensures HdAuth(r, delta, HdSub(r, a, b), KeySub(r, delta, k, l))
    ensures Value(HdSub(r, a, b)) == r.Sub(Value(a), Value(b))
  {
    hide Eval, Pow;
    var d := Max(k.degree, l.degree);
    AlignAuth(r, delta, a, k, d);
    AlignAuth(r, delta, b, l, d);
    EvalSub(r, Align(r, a, d + 1), Align(r, b, d + 1), delta);
  }

  lemma MulKeepsAuth<F(!new)>(r: Ring<F>, delta: F, a: seq<F>, b: seq<F>, k: HdKey<F>, l: HdKey<F>)
    requires IsRing(r) && HdAuth(r, delta, a, k) && HdAuth(r, delta, b, l)
    ensures HdAuth(r, delta, MulSeq(r, a, b), KeyMul(r, k, l))
  {
    EvalMul(r, a, b, delta);
  }

  lemma MulValue<F(!new)>(r: Ring<F>, a: seq<F>, b: seq<F>)
    requires IsRing(r) && a != [] && b != []
    ensures Value(MulSeq(r, a, b)) == r.mul(Value(a), Value(b))
  {
    MulSeqLast(r, a, b);
  }

  lemma HdMulAuth<F(!new)>(r: Ring<F>, delta: F, a: seq<F>, b: seq<F>, k: HdKey<F>, l: HdKey<F>)
    requires IsRing(r) && HdAuth(r, delta, a, k) && HdAuth(r, delta, b, l)
    ensures HdAuth(r, delta, MulSeq(r, a, b), KeyMul(r, k, l))
    ensures Value(MulSeq(r, a, b)) == r.mul(Value(a), Value(b))
  {
    MulKeepsAuth(r, delta, a, b, k, l);
    MulValue(r, a, b);
  }

  lemma HdScaleAuth<F(!new)>(r: Ring<F>, delta: F, x: F, a: seq<F>, k: HdKey<F>)
    requires IsRing(r) && HdAuth(r, delta, a, k)
    ensures HdAuth(r, delta, ScaleSeq(r, x, a), KeyScale(r, x, k))
    ensures Value(ScaleSeq(r, x, a)) == r.mul(x, Value(a))
  {
    EvalScale(r, x, a, delta);
  }

  lemma HdAddCstAuth<F(!new)>(r: Ring<F>, delta: F, a: seq<F>, x: F, k: HdKey<F>)
    requires IsRing(r) && HdAuth(r, delta, a, k)
    ensures HdAuth(r, delta, HdAddCst(r, a, x), KeyAddCst(r, delta, k, x))
    ensures Value(HdAddCst(r, a, x)) == r.add(Value(a), x)
  {
    var d := k.degree;
    assert a == a[..d] + [a[d]];
    assert HdAddCst(r, a, x) == a[..d] + [r.add(a[d], x)];
    EvalSnoc(r, a[..d], a[d], delta);
    EvalSnoc(r, a[..d], r.add(a[d], x), delta);
    var w := Pow(r, delta, d);
    Distribute(r, w, a[d], x);
    MulComm(r, w, x);
    AddAssoc(r, Eval(r, a[..d], delta), r.mul(w, a[d]), r.mul(x, w));
  }

  lemma HdSubCstAuth<F(!new)>(r: Ring<F>, delta: F, a: seq<F>, x: F, k: HdKey<F>)
    requires IsRing(r) && HdAuth(r, delta, a, k)
    ensures HdAuth(r, delta, HdSubCst(r, a, x), KeySubCst(r, delta, k, x))
    ensures Value(HdSubCst(r, a, x)) == r.Sub(Value(a), x)
  {
    HdAddCstAuth(r, delta, a, r.neg(x), k);
    MulNeg(r, x, Pow(r, delta, k.degree));
  }

  lemma HdXorAuth<F(!new)>(r: Ring<F>, delta: F, a: seq<F>, b: seq<F>, k: HdKey<F>, l: HdKey<F>)
    requires IsRing(r) && HdAuth(r, delta, a, k) && HdAuth(r, delta, b, l)
    ensures HdAuth(r, delta, HdXor(r, a, b), KeyXor(r, delta, k, l))
    ensures Value(HdXor(r, a, b)) == r.add(r.add(Value(a), Value(b)), r.mul(MinusTwo(r), r.mul(Value(a), Value(b))))
  {
    HdAddAuth(r, delta, a, b, k, l);
    HdMulAuth(r, delta, a, b, k, l);
    HdScaleAuth(r, delta, MinusTwo(r), MulSeq(r, a, b), KeyMul(r, k, l));
    HdAddAuth(r, delta, HdAdd(r, a, b), ScaleSeq(r, MinusTwo(r), MulSeq(r, a, b)),
              KeyAdd(r, delta, k, l), KeyScale(r, MinusTwo(r), KeyMul(r, k, l)));
  }

  // ---- the accumulated check ----

  /** The prover's state after the given checks. */
  function QsState<F>(r: Ring<F>, chi: F, checked: seq<seq<F>>): (c: seq<F>)
    requires forall i :: 0 <= i < |checked| ==> checked[i] != []
    ensures |c| >= 2
  {
    if checked == [] then [r.zero, r.zero]
    else var n := |checked| - 1; ScaleSeq(r, chi, HdAdd(r, QsState(r, chi, checked[..n]), checked[n]))
  }

  function QsKey<F>(r: Ring<F>, delta: F, chi: F, checked: seq<HdKey<F>>): HdKey<F> {
    if checked == [] then HdKey(r.zero, 1)
    else var n := |checked| - 1; KeyScale(r, chi, KeyAdd(r, delta, QsKey(r, delta, chi, checked[..n]), checked[n]))
  }

  ghost predicate HdAuthAll<F>(r: Ring<F>, delta: F, cs: seq<seq<F>>, ks: seq<HdKey<F>>) {
    |cs| == |ks| && forall i :: 0 <= i < |cs| ==> HdAuth(r, delta, cs[i], ks[i])
  }

  function ClearValues<F>(cs: seq<seq<F>>): seq<F>
    requires forall i :: 0 <= i < |cs| ==> cs[i] != []
  {
    seq(|cs|, i requires 0 <= i < |cs| => Value(cs[i]))
  }

  /** ((v0 * x + v1) * x + v2) * x ... */
  ghost function HornerSum<F>(r: Ring<F>, x: F, vs: seq<F>): F {
    if vs == [] then r.zero
    else var n := |vs| - 1; r.mul(x, r.add(HornerSum(r, x, vs[..n]), vs[n]))
  }

  lemma QsStep<F(!new)>(r: Ring<F>, delta: F, chi: F, c: seq<F>, m: seq<F>, k: HdKey<F>, l: HdKey<F>)
    requires IsRing(r) && HdAuth(r, delta, c, k) && HdAuth(r, delta, m, l)
    ensures HdAuth(r, delta, ScaleSeq(r, chi, HdAdd(r, c, m)), KeyScale(r, chi, KeyAdd(r, delta, k, l)))
  {
    HdAddAuth(r, delta, c, m, k, l);
    HdScaleAuth(r, delta, chi, HdAdd(r, c, m), KeyAdd(r, delta, k, l));
  }

  lemma {:induction false} QsStateAuth<F(!new)>(r: Ring<F>, delta: F, chi: F, cs: seq<seq<F>>, ks: seq<HdKey<F>>)
    requires IsRing(r) && HdAuthAll(r, delta, cs, ks)
    ensures HdAuth(r, delta, QsState(r, chi, cs), QsKey(r, delta, chi, ks))
  {
    if cs == [] {
      assert [r.zero, r.zero] == Zeros(r, 2);
      EvalZeros(r, 2, delta);
    } else {
      var n := |cs| - 1;
      QsStateAuth(r, delta, chi, cs[..n], ks[..n]);
      QsStep(r, delta, chi, QsState(r, chi, cs[..n]), cs[n], QsKey(r, delta, chi, ks[..n]), ks[n]);
    }
  }

  lemma HdAddValue<F(!new)>(r: Ring<F>, a: seq<F>, b: seq<F>)
    requires a != [] && b != []
    ensures HdAdd(r, a, b) != [] && Value(HdAdd(r, a, b)) == r.add(Value(a), Value(b))
  {
  }

  /** The clear value of the state combines those of the checked values. */
  lemma {:induction false} QsStateValue<F(!new)>(r: Ring<F>, chi: F, cs: seq<seq<F>>)
    requires IsRing(r) && forall i :: 0 <= i < |cs| ==> cs[i] != []
    ensures Value(QsState(r, chi, cs)) == HornerSum(r, chi, ClearValues(cs))
  {
    if cs != [] {
      var n := |cs| - 1;
      QsStateValue(r, chi, cs[..n]);
      assert ClearValues(cs)[..n] == ClearValues(cs[..n]);
      HdAddValue(r, QsState(r, chi, cs[..n]), cs[n]);
    }
  }

  lemma {:induction false} HornerSumZero<F(!new)>(r: Ring<F>, x: F, vs: seq<F>)
    requires IsRing(r) && AllZero(r, vs)
    ensures HornerSum(r, x, vs) == r.zero
  {
    if vs != [] {
      HornerSumZero(r, x, vs[..|vs| - 1]);
      AddZero(r, r.zero);
      MulZero(r, x);
    }
  }

  function Reverse<A>(s: seq<A>): seq<A> {
    seq(|s|, i requires 0 <= i < |s| => s[|s| - 1 - i])
  }

  lemma {:induction false} HornerSumIsEval<F(!new)>(r: Ring<F>, x: F, vs: seq<F>)
    requires IsRing(r)
    ensures HornerSum(r, x, vs) == Eval(r, [r.zero] + Reverse(vs), x)
  {
    var c := [r.zero] + Reverse(vs);
    assert c[1..] == Reverse(vs);
    AddZero(r, r.mul(x, Eval(r, Reverse(vs), x)));
    if vs == [] {
      MulZero(r, x);
    } else {
      var n := |vs| - 1;
      HornerSumIsEval(r, x, vs[..n]);
      var d := [r.zero] + Reverse(vs[..n]);
      assert d[1..] == Reverse(vs[..n]) == Reverse(vs)[1..];
      AddZero(r, r.mul(x, Eval(r, Reverse(vs[..n]), x)));
      AddComm(r, HornerSum(r, x, vs[..n]), vs[n]);
    }
  }

  // ---- the masked end of a check ----

  /** The mask polynomial, from the top coefficient down; each group holds one random value per basis element. */
  ghost function MaskPoly<F>(r: Ring<F>, basis: seq<F>, groups: seq<seq<MacProver<F>>>): (c: seq<F>)
    requires forall i :: 0 <= i < |groups| ==> |groups[i]| == |basis|
    ensures |c| == |groups| + 1
  {
    if groups == [] then [r.zero]
    else
      var n := |groups| - 1;
      var rest := MaskPoly(r, basis, groups[..n]);
      [r.neg(Dot(r, basis, Macs(groups[n])))] + [r.add(rest[0], Dot(r, basis, Values(groups[n])))] + rest[1..]
  }

  ghost function MaskKey<F>(r: Ring<F>, delta: F, basis: seq<F>, groups: seq<seq<MacVerifier<F>>>): F
    requires forall i :: 0 <= i < |groups| ==> |groups[i]| == |basis|
  {
    if groups == [] then r.zero
    else
      var n := |groups| - 1;
      r.Sub(r.mul(MaskKey(r, delta, basis, groups[..n]), delta), Dot(r, basis, Keys(groups[n])))
  }

  ghost predicate AuthGroups<F>(r: Ring<F>, delta: F, basis: seq<F>,
                                us: seq<seq<MacProver<F>>>, vs: seq<seq<MacVerifier<F>>>) {
    && |us| == |vs|
    && forall i :: 0 <= i < |us| ==> |us[i]| == |vs[i]| == |basis| && AuthAll(r, delta, us[i], vs[i])
  }

  lemma MaskStep<F(!new)>(r: Ring<F>, d: F, k: F, u: F, m0: F, rest: F)
    requires IsRing(r)
    ensures r.add(r.neg(r.add(k, r.mul(d, u))), r.mul(d, r.add(r.add(m0, u), rest)))
         == r.Sub(r.mul(r.add(m0, rest), d), k)
  {
    Identity(r, [d, k, u, m0, rest],
             Plus(Minus(Plus(V(1), Times(V(0), V(2)))), Times(V(0), Plus(Plus(V(3), V(2)), V(4)))),
             Less(Times(Plus(V(3), V(4)), V(0)), V(1)));
  }

  /** The verifier's mask is the mask polynomial at delta. */
  lemma {:induction false} MaskAuth<F(!new)>(r: Ring<F>, delta: F, basis: seq<F>,
                                             us: seq<seq<MacProver<F>>>, vs: seq<seq<MacVerifier<F>>>)
    requires IsRing(r) && AuthGroups(r, delta, basis, us, vs)
    ensures Eval(r, MaskPoly(r, basis, us), delta) == MaskKey(r, delta, basis, vs)
  {
    if us == [] {
      MulZero(r, delta);
      AddZero(r, r.zero);
    } else {
      var n := |us| - 1;
      MaskAuth(r, delta, basis, us[..n], vs[..n]);
      DotAuth(r, delta, basis, us[n], vs[n]);
      var rest := MaskPoly(r, basis, us[..n]);
      var c := MaskPoly(r, basis, us);
      assert c[1..] == [r.add(rest[0], Dot(r, basis, Values(us[n])))] + rest[1..];
      assert c[1..][1..] == rest[1..];
      MaskStep(r, delta, Dot(r, basis, Keys(vs[n])), Dot(r, basis, Values(us[n])), rest[0],
               r.mul(delta, Eval(r, rest[1..], delta)));
    }
  }

  /** What the prover sends at the end: all coefficients but the top one, masked. */
  function Proof<F>(r: Ring<F>, state: seq<F>, mask: seq<F>): seq<F>
    requires |state| == |mask| + 1
  {
    AddSeq(r, mask, state[..|mask|])
  }

  /** A check of any authenticated values, finished with a matching mask, is accepted exactly when
      delta^d * (the combination of the clear values) = 0. */
  lemma QsExact<F(!new)>(r: Ring<F>, delta: F, chi: F, cs: seq<seq<F>>, ks: seq<HdKey<F>>, mask: seq<F>, maskKey: F)
    requires IsRing(r) && HdAuthAll(r, delta, cs, ks)
    requires |mask| == |QsState(r, chi, cs)| - 1 && Eval(r, mask, delta) == maskKey
    ensures var k := QsKey(r, delta, chi, ks);
            Eval(r, Proof(r, QsState(r, chi, cs), mask), delta) == r.add(k.mac, maskKey)
            <==> r.mul(Pow(r, delta, k.degree), HornerSum(r, chi, ClearValues(cs))) == r.zero
  {
    hide Eval, Pow, QsState, QsKey, HornerSum;
    QsStateAuth(r, delta, chi, cs, ks);
    QsStateValue(r, chi, cs);
    var c, k := QsState(r, chi, cs), QsKey(r, delta, chi, ks);
    ProofExact(r, delta, c, k, mask);
  }

  /** All coefficients but the top one, masked, evaluate to the masked mac exactly when delta^d * top = 0. */
  lemma ProofExact<F(!new)>(r: Ring<F>, delta: F, c: seq<F>, k: HdKey<F>, mask: seq<F>)
    requires IsRing(r) && HdAuth(r, delta, c, k) && |mask| == k.degree
    ensures Eval(r, Proof(r, c, mask), delta) == r.add(k.mac, Eval(r, mask, delta))
       <==> r.mul(Pow(r, delta, k.degree), Value(c)) == r.zero
  {
    hide Eval, Pow;
    var d, maskKey := k.degree, Eval(r, mask, delta);
    EvalAdd(r, mask, c[..d], delta);
    assert c == c[..d] + [c[d]];
    EvalSnoc(r, c[..d], c[d], delta);
    var low, top := Eval(r, c[..d], delta), r.mul(Pow(r, delta, d), c[d]);
    MaskedSum(r, low, top, maskKey);
  }

  lemma MaskedSum<F(!new)>(r: Ring<F>, low: F, top: F, mask: F)
    requires IsRing(r)
    ensures r.add(mask, low) == r.add(r.add(low, top), mask) <==> top == r.zero
  {
    AddComm(r, mask, low);
    AddAssoc(r, low, mask, top);
    AddAssoc(r, low, top, mask);
    AddComm(r, mask, top);
    AddZero(r, r.add(low, mask));
    if r.add(low, mask) == r.add(r.add(low, mask), top) {
      CancelAdd(r, r.add(low, mask), top, r.zero);
    }
  }

  /** Completeness: checks of zeros are always accepted. */
  lemma QsComplete<F(!new)>(r: Ring<F>, delta: F, chi: F, cs: seq<seq<F>>, ks: seq<HdKey<F>>, mask: seq<F>, maskKey: F)
    requires IsRing(r) && HdAuthAll(r, delta, cs, ks)
    requires |mask| == |QsState(r, chi, cs)| - 1 && Eval(r, mask, delta) == maskKey
    requires AllZero(r, ClearValues(cs))
    ensures Value(QsState(r, chi, cs)) == r.zero
    ensures Eval(r, Proof(r, QsState(r, chi, cs), mask), delta) == r.add(QsKey(r, delta, chi, ks).mac, maskKey)
  {
    QsExact(r, delta, chi, cs, ks, mask, maskKey);
    QsStateValue(r, chi, cs);
    HornerSumZero(r, chi, ClearValues(cs));
    MulZero(r, Pow(r, delta, QsKey(r, delta, chi, ks).degree));
  }

  lemma {:induction false} PowNonZero<F(!new)>(r: Ring<F>, x: F, n: nat)
    requires IsDomain(r) && x != r.zero
    ensures Pow(r, x, n) != r.zero
  {
    if n > 0 {
      PowNonZero(r, x, n - 1);
      assert At((Pow(r, x, n - 1), x));
    }
  }

  /** Over a field, with delta non-zero, n checked values that are not all zero pass for at most n challenges. */
  lemma FewChallengesAccept<F(!new)>(r: Ring<F>, delta: F, cs: seq<seq<F>>, ks: seq<HdKey<F>>,
                                     mask: F -> seq<F>, chis: set<F>)
    requires IsDomain(r) && delta != r.zero && HdAuthAll(r, delta, cs, ks)
    requires !AllZero(r, ClearValues(cs))
    requires forall chi :: chi in chis ==> |mask(chi)| == |QsState(r, chi, cs)| - 1
    requires forall chi :: chi in chis ==>
      Eval(r, Proof(r, QsState(r, chi, cs), mask(chi)), delta) == r.add(QsKey(r, delta, chi, ks).mac,
          Eval(r, mask(chi), delta))
    ensures |chis| <= |cs|
  {
    var vs := ClearValues(cs);
    var c := [r.zero] + Reverse(vs);
    forall chi | chi in chis ensures Eval(r, c, chi) == r.zero {
      QsExact(r, delta, chi, cs, ks, mask(chi), Eval(r, mask(chi), delta));
      PowNonZero(r, delta, QsKey(r, delta, chi, ks).degree);
      assert At((Pow(r, delta, QsKey(r, delta, chi, ks).degree), HornerSum(r, chi, vs)));
      HornerSumIsEval(r, chi, vs);
    }
    var i :| 0 <= i < |vs| && vs[i] != r.zero;
    assert c[|vs| - i] == vs[i];
    RootBound(r, c, chis);
  }

  /** c + mask - proof, where proof may be shorter than mask. */
  function Difference<F>(r: Ring<F>, c: seq<F>, mask: seq<F>, proof: seq<F>): (g: seq<F>)
    requires |proof| <= |mask| == |c| - 1
    ensures |g| == |c| && g[|mask|] == c[|mask|]
  {
    AddSeq(r, c[..|mask|], SubSeq(r, mask, proof + Zeros(r, |mask| - |proof|))) + [c[|mask|]]
  }

  /** Its roots are the points at which the proof is accepted. */
  lemma DifferenceRoot<F(!new)>(r: Ring<F>, c: seq<F>, mask: seq<F>, proof: seq<F>, x: F)
    requires IsRing(r) && |proof| <= |mask| == |c| - 1
    ensures Eval(r, Difference(r, c, mask, proof), x) == r.zero
       <==> Eval(r, proof, x) == r.add(Eval(r, c, x), Eval(r, mask, x))
  {
    hide Eval, Pow;
    var d := |mask|;
    var padded := proof + Zeros(r, d - |proof|);
    var low := AddSeq(r, c[..d], SubSeq(r, mask, padded));
    EvalPadded(r, proof, d - |proof|, x);
    EvalSub(r, mask, padded, x);
    EvalAdd(r, c[..d], SubSeq(r, mask, padded), x);
    EvalSnoc(r, low, c[d], x);
    assert c == c[..d] + [c[d]];
    EvalSnoc(r, c[..d], c[d], x);
    RootMeans(r, Eval(r, c[..d], x), Eval(r, mask, x), Eval(r, proof, x), r.mul(Pow(r, x, d), c[d]));
  }

  lemma RootMeans<F(!new)>(r: Ring<F>, low: F, mask: F, proof: F, top: F)
    requires IsRing(r)
    ensures r.add(r.add(low, r.Sub(mask, proof)), top) == r.zero <==> proof == r.add(r.add(low, top), mask)
  {
    Identity(r, [low, mask, proof, top], Plus(Plus(V(0), Less(V(1), V(2))), V(3)),
             Less(Plus(Plus(V(0), V(3)), V(1)), V(2)));
    SubIsZero(r, r.add(r.add(low, top), mask), proof);
  }

  /** Against a prover that sends whatever it likes: when the challenge does not cancel the checked values, any proof
      of at most d coefficients is accepted for at most d deltas, where d is the degree of the check. The checked
      polynomials and the mask are fixed; the keys follow delta. */
  lemma FewDeltasAccept<F(!new)>(r: Ring<F>, chi: F, cs: seq<seq<F>>, mask: seq<F>, proof: seq<F>,
                                 keys: F -> seq<HdKey<F>>, deltas: set<F>)
    requires IsDomain(r) && (forall i :: 0 <= i < |cs| ==> cs[i] != []) && HornerSum(r, chi, ClearValues(cs)) != r.zero
    requires |proof| <= |mask| == |QsState(r, chi, cs)| - 1
    requires forall d :: d in deltas ==> HdAuthAll(r, d, cs, keys(d))
    requires forall d :: d in deltas ==> Eval(r, proof, d) == r.add(QsKey(r, d, chi, keys(d)).mac, Eval(r, mask, d))
    ensures |deltas| <= |QsState(r, chi, cs)| - 1
  {
    hide Eval, Pow, QsState, QsKey, HornerSum, HdAuthAll, AddSeq, SubSeq, Zeros, Difference;
    var c := QsState(r, chi, cs);
    var d := |mask|;
    QsStateValue(r, chi, cs);
    var g := Difference(r, c, mask, proof);
    forall x | x in deltas ensures Eval(r, g, x) == r.zero {
      QsStateAuth(r, x, chi, cs, keys(x));
      DifferenceRoot(r, c, mask, proof, x);
    }
    assert g[d] == Value(c) != r.zero;
    RootBound(r, g, deltas);
  }

  /** The degree of the state is the largest degree checked so far. */
  lemma {:induction false} QsStateDegree<F>(r: Ring<F>, chi: F, cs: seq<seq<F>>, d: nat)
    requires d >= 1 && forall i :: 0 <= i < |cs| ==> 2 <= |cs[i]| <= d + 1
    ensures |QsState(r, chi, cs)| <= d + 1
    ensures d == 1 || (exists i :: 0 <= i < |cs| && |cs[i]| == d + 1) ==> |QsState(r, chi, cs)| == d + 1
  {
    if cs != [] {
      var n := |cs| - 1;
      QsStateDegree(r, chi, cs[..n], d);
      if i :| 0 <= i < |cs| && |cs[i]| == d + 1 && i < n {
        assert cs[..n][i] == cs[i];
      }
    }
  }

  // ---- the random values behind the mask ----

  function DrawGroups<T>(supply: nat -> seq<T>, p: Pool<T>, b: nat, n: nat): (res: (seq<seq<T>>, Pool<T>))
    requires Productive(supply)
    ensures |res.0| == n && forall i :: 0 <= i < n ==> |res.0[i]| == b
  {
    if n == 0 then ([], p)
    else
      var (gs, q) := DrawGroups(supply, p, b, n - 1);
      var (g, q') := DrawN(supply, q, b);
      (gs + [g], q')
  }

  /** Groups are numbered like everything a supply delivers. */
  lemma {:induction false} GroupsNumbered<T>(supply: nat -> seq<T>, from: nat, b: nat, n: nat)
    requires Productive(supply)
    ensures var (gs, q) := DrawGroups(supply, DrawN(supply, Pool([], 0), from).1, b, n);
            && (forall i :: 0 <= i < n ==> gs[i] == Delivered(supply, from + Arith.Times(i, b), b))
            && q == DrawN(supply, Pool([], 0), from + Arith.Times(n, b)).1
  {
    hide DrawN, Productive;
    if n > 0 {
      GroupsNumbered(supply, from, b, n - 1);
      DrawNSplit(supply, Pool([], 0), from + Arith.Times(n - 1, b), b);
    }
  }

  /** The mask polynomial made of the values numbered from `from` on. */
  ghost function DeliveredMask<F>(r: Ring<F>, basis: seq<F>, supply: nat -> seq<MacProver<F>>, from: nat,
                                  n: nat): (c: seq<F>)
    ensures |c| == n + 1
  {
    if Productive(supply)
    then MaskPoly(r, basis, DrawGroups(supply, DrawN(supply, Pool([], 0), from).1, |basis|, n).0)
    else Zeros(r, n + 1)
  }

  ghost predicate Proper<F>(cs: seq<seq<F>>) {
    forall i :: 0 <= i < |cs| ==> cs[i] != []
  }

  /** The message that finishes a check of cs, masked with the values numbered from `from` on. */
  ghost function DeliveredProof<F>(r: Ring<F>, basis: seq<F>, supply: nat -> seq<MacProver<F>>, from: nat, chi: F,
                                   cs: seq<seq<F>>): seq<F>
  {
    if !Proper(cs) then []
    else
      var state := QsState(r, chi, cs);
      Proof(r, state, DeliveredMask(r, basis, supply, from, |state| - 2))
  }

  lemma DrawGroupsStep<T>(supply: nat -> seq<T>, p: Pool<T>, b: nat, n: nat, gs: seq<seq<T>>, q: Pool<T>, g: seq<T>,
                          q': Pool<T>)
    requires Productive(supply) && (gs, q) == DrawGroups(supply, p, b, n) && (g, q') == DrawN(supply, q, b)
    ensures (gs + [g], q') == DrawGroups(supply, p, b, n + 1)
  {
  }

  lemma MaskKeyStep<F>(r: Ring<F>, delta: F, basis: seq<F>, groups: seq<seq<MacVerifier<F>>>, g: seq<MacVerifier<F>>)
    requires |g| == |basis| && forall i :: 0 <= i < |groups| ==> |groups[i]| == |basis|
    ensures MaskKey(r, delta, basis, groups + [g])
         == r.Sub(r.mul(MaskKey(r, delta, basis, groups), delta), Dot(r, basis, Keys(g)))
  {
    assert (groups + [g])[..|groups|] == groups;
  }

  lemma MaskPolyStep<F>(r: Ring<F>, basis: seq<F>, groups: seq<seq<MacProver<F>>>, g: seq<MacProver<F>>)
    requires |g| == |basis| && forall i :: 0 <= i < |groups| ==> |groups[i]| == |basis|
    ensures MaskPoly(r, basis, groups + [g])
         == [r.neg(Dot(r, basis, Macs(g)))] + [r.add(MaskPoly(r, basis, groups)[0], Dot(r, basis, Values(g)))]
            + MaskPoly(r, basis, groups)[1..]
  {
    assert (groups + [g])[..|groups|] == groups;
  }

  lemma {:induction false} DrawGroupsCorrelated<F>(r: Ring<F>, delta: F, prime: F -> bool, basis: seq<F>,
                                ps: nat -> seq<MacProver<F>>, p: Pool<MacProver<F>>,
                                vs: nat -> seq<MacVerifier<F>>, v: Pool<MacVerifier<F>>, n: nat)
    requires Correlated(r, delta, prime, ps, p, vs, v)
    ensures AuthGroups(r, delta, basis, DrawGroups(ps, p, |basis|, n).0, DrawGroups(vs, v, |basis|, n).0)
    ensures Correlated(r, delta, prime, ps, DrawGroups(ps, p, |basis|, n).1, vs, DrawGroups(vs, v, |basis|, n).1)
  {
    if n > 0 {
      DrawGroupsCorrelated(r, delta, prime, basis, ps, p, vs, v, n - 1);
      DrawNCorrelated(r, delta, prime, ps, DrawGroups(ps, p, |basis|, n - 1).1, vs, DrawGroups(vs, v, |basis|, n - 1).1,
                      |basis|);
    }
  }
}
