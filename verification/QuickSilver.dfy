/** The batched multiplication check, what it accepts exactly, and how many challenges can fool it. */
module QuickSilver {
  import opened Rings
  import opened RingNormaliser
  import opened Sums
  import opened Homcom
  import opened Polynomials

  type TripleP<F> = (MacProver<F>, MacProver<F>, MacProver<F>)
  type TripleV<F> = (MacVerifier<F>, MacVerifier<F>, MacVerifier<F>)

  ghost predicate AuthTriple<F>(r: Ring<F>, delta: F, t: TripleP<F>, s: TripleV<F>) {
    Auth(r, delta, t.0, s.0) && Auth(r, delta, t.1, s.1) && Auth(r, delta, t.2, s.2)
  }

  ghost predicate AuthTriples<F>(r: Ring<F>, delta: F, ts: seq<TripleP<F>>, ss: seq<TripleV<F>>) {
    |ts| == |ss| && forall i :: 0 <= i < |ts| ==> AuthTriple(r, delta, ts[i], ss[i])
  }

  function A0<F>(r: Ring<F>, t: TripleP<F>): F {
    r.mul(t.0.m, t.1.m)
  }

  function A1<F>(r: Ring<F>, t: TripleP<F>): F {
    r.Sub(r.add(r.mul(t.1.x, t.0.m), r.mul(t.0.x, t.1.m)), t.2.m)
  }

  function B<F>(r: Ring<F>, delta: F, s: TripleV<F>): F {
    r.add(r.mul(s.0.k, s.1.k), r.mul(delta, s.2.k))
  }

  /** How far the triple is from being a multiplication triple. */
  ghost function Defect<F>(r: Ring<F>, t: TripleP<F>): F {
    r.Sub(r.mul(t.0.x, t.1.x), t.2.x)
  }

  ghost function A0s<F>(r: Ring<F>, ts: seq<TripleP<F>>): seq<F> {
    seq(|ts|, i requires 0 <= i < |ts| => A0(r, ts[i]))
  }

  ghost function A1s<F>(r: Ring<F>, ts: seq<TripleP<F>>): seq<F> {
    seq(|ts|, i requires 0 <= i < |ts| => A1(r, ts[i]))
  }

  ghost function Bs<F>(r: Ring<F>, delta: F, ss: seq<TripleV<F>>): seq<F> {
    seq(|ss|, i requires 0 <= i < |ss| => B(r, delta, ss[i]))
  }

  ghost function Defects<F>(r: Ring<F>, ts: seq<TripleP<F>>): seq<F> {
    seq(|ts|, i requires 0 <= i < |ts| => Defect(r, ts[i]))
  }

  /** What the verifier compares: b against a0 + (-delta) * a1. */
  ghost function Gap<F>(r: Ring<F>, delta: F, b: F, a0: F, a1: F): F {
    r.Sub(b, r.add(a0, r.mul(r.neg(delta), a1)))
  }

  /** (k + dx)(l + dy) = kl + d((xl + yk) + d(xy)) */
  lemma MacProduct<F(!new)>(r: Ring<F>, d: F, k: F, x: F, l: F, y: F)
    requires IsRing(r)
    ensures r.mul(r.add(k, r.mul(d, x)), r.add(l, r.mul(d, y)))
         == r.add(r.mul(k, l), r.mul(d, r.add(r.add(r.mul(x, l), r.mul(y, k)), r.mul(d, r.mul(x, y)))))
  {
    SumProduct(r, k, r.mul(d, x), l, r.mul(d, y));
    CollectDelta(r, d, k, x, l, y);
  }

  lemma SumProduct<F(!new)>(r: Ring<F>, a: F, b: F, c: F, e: F)
    requires IsRing(r)
    ensures r.mul(r.add(a, b), r.add(c, e)) == r.add(r.mul(a, c), r.add(r.mul(b, c), r.mul(e, r.add(a, b))))
  {
    Identity(r, [a, b, c, e],
             Times(Plus(V(0), V(1)), Plus(V(2), V(3))),
             Plus(Times(V(0), V(2)), Plus(Times(V(1), V(2)), Times(V(3), Plus(V(0), V(1))))));
  }

  lemma CollectDelta<F(!new)>(r: Ring<F>, d: F, k: F, x: F, l: F, y: F)
    requires IsRing(r)
    ensures r.add(r.mul(r.mul(d, x), l), r.mul(r.mul(d, y), r.add(k, r.mul(d, x))))
         == r.mul(d, r.add(r.add(r.mul(x, l), r.mul(y, k)), r.mul(d, r.mul(x, y))))
  {
    Identity(r, [d, k, x, l, y],
             Plus(Times(Times(V(0), V(2)), V(3)), Times(Times(V(0), V(4)), Plus(V(1), Times(V(0), V(2))))),
             Times(V(0), Plus(Plus(Times(V(2), V(3)), Times(V(4), V(1))), Times(V(0), Times(V(2), V(4))))));
  }

  lemma CrossTerms<F(!new)>(r: Ring<F>, d: F, k: F, x: F, l: F, y: F)
    requires IsRing(r)
    ensures r.add(r.mul(y, r.add(k, r.mul(d, x))), r.mul(x, r.add(l, r.mul(d, y))))
         == r.add(r.add(r.mul(x, l), r.mul(y, k)), r.mul(d, r.add(r.mul(x, y), r.mul(x, y))))
  {
    var q := r.mul(x, y);
    Distribute(r, y, k, r.mul(d, x));
    Distribute(r, x, l, r.mul(d, y));
    AddSwap(r, r.mul(y, k), r.mul(y, r.mul(d, x)), r.mul(x, l), r.mul(x, r.mul(d, y)));
    AddComm(r, r.mul(y, k), r.mul(x, l));
    Identity(r, [d, x, y], Times(V(2), Times(V(0), V(1))), Times(V(0), Times(V(1), V(2))));
    Identity(r, [d, x, y], Times(V(1), Times(V(0), V(2))), Times(V(0), Times(V(1), V(2))));
    Distribute(r, d, q, q);
  }

  /** (s + dq) - ((s + d(q + q)) - (kz + dz)) = kz + d(z - q) */
  lemma InnerCancels<F(!new)>(r: Ring<F>, d: F, s: F, q: F, kz: F, z: F)
    requires IsRing(r)
    ensures r.Sub(r.add(s, r.mul(d, q)), r.Sub(r.add(s, r.mul(d, r.add(q, q))), r.add(kz, r.mul(d, z))))
         == r.add(kz, r.mul(d, r.Sub(z, q)))
  {
    Identity(r, [d, s, q, kz, z],
             Less(Plus(V(1), Times(V(0), V(2))),
                  Less(Plus(V(1), Times(V(0), Plus(V(2), V(2)))), Plus(V(3), Times(V(0), V(4))))),
             Plus(V(3), Times(V(0), Less(V(4), V(2)))));
  }

  /** (kl + d kz) - ((kl + d left) + (-d) inner) = d (kz - (left - inner)) */
  lemma OuterCancels<F(!new)>(r: Ring<F>, d: F, kl: F, kz: F, left: F, inner: F)
    requires IsRing(r)
    ensures Gap(r, d, r.add(kl, r.mul(d, kz)), r.add(kl, r.mul(d, left)), inner)
         == r.mul(d, r.Sub(kz, r.Sub(left, inner)))
  {
    Identity(r, [d, kl, kz, left, inner],
             Less(Plus(V(1), Times(V(0), V(2))), Plus(Plus(V(1), Times(V(0), V(3))), Times(Minus(V(0)), V(4)))),
             Times(V(0), Less(V(2), Less(V(3), V(4)))));
  }

  /** Cancelling the terms that the two parties' expressions share leaves d * d * (q - z). */
  lemma GapCancels<F(!new)>(r: Ring<F>, d: F, kl: F, s: F, q: F, kz: F, z: F)
    requires IsRing(r)
    ensures Gap(r, d, r.add(kl, r.mul(d, kz)), r.add(kl, r.mul(d, r.add(s, r.mul(d, q)))),
                r.Sub(r.add(s, r.mul(d, r.add(q, q))), r.add(kz, r.mul(d, z))))
         == r.mul(r.mul(d, d), r.Sub(q, z))
  {
    var left := r.add(s, r.mul(d, q));
    InnerCancels(r, d, s, q, kz, z);
    OuterCancels(r, d, kl, kz, left, r.Sub(r.add(s, r.mul(d, r.add(q, q))), r.add(kz, r.mul(d, z))));
    Identity(r, [d, kz, z, q],
             Times(V(0), Less(V(1), Plus(V(1), Times(V(0), Less(V(2), V(3)))))),
             Times(Times(V(0), V(0)), Less(V(3), V(2))));
  }

  lemma TripleGap<F(!new)>(r: Ring<F>, delta: F, t: TripleP<F>, s: TripleV<F>)
    requires IsRing(r) && AuthTriple(r, delta, t, s)
    ensures Gap(r, delta, B(r, delta, s), A0(r, t), A1(r, t)) == r.mul(r.mul(delta, delta), Defect(r, t))
  {
    MacProduct(r, delta, s.0.k, t.0.x, s.1.k, t.1.x);
    CrossTerms(r, delta, s.0.k, t.0.x, s.1.k, t.1.x);
    var cross := r.add(r.mul(t.0.x, s.1.k), r.mul(t.1.x, s.0.k));
    GapCancels(r, delta, r.mul(s.0.k, s.1.k), cross, r.mul(t.0.x, t.1.x), s.2.k, t.2.x);
  }

  lemma RightStep<F(!new)>(r: Ring<F>, e: F, s0: F, s1: F, a0: F, a1: F, w: F)
    requires IsRing(r)
    ensures r.add(r.add(s0, r.mul(a0, w)), r.mul(e, r.add(s1, r.mul(a1, w))))
         == r.add(r.add(s0, r.mul(e, s1)), r.mul(r.add(a0, r.mul(e, a1)), w))
  {
    Distribute(r, e, s1, r.mul(a1, w));
    MulAssoc(r, e, a1, w);
    Distribute(r, w, a0, r.mul(e, a1));
    AddSwap(r, s0, r.mul(a0, w), r.mul(e, s1), r.mul(r.mul(e, a1), w));
  }

  lemma GapStep<F(!new)>(r: Ring<F>, d: F, sb: F, s0: F, s1: F, b: F, a0: F, a1: F, w: F)
    requires IsRing(r)
    ensures Gap(r, d, r.add(sb, r.mul(b, w)), r.add(s0, r.mul(a0, w)), r.add(s1, r.mul(a1, w)))
         == r.add(Gap(r, d, sb, s0, s1), r.mul(Gap(r, d, b, a0, a1), w))
  {
    RightStep(r, r.neg(d), s0, s1, a0, a1, w);
    var u, v := r.add(s0, r.mul(r.neg(d), s1)), r.add(a0, r.mul(r.neg(d), a1));
    Identity(r, [sb, b, w, u, v],
             Less(Plus(V(0), Times(V(1), V(2))), Plus(V(3), Times(V(4), V(2)))),
             Plus(Less(V(0), V(3)), Times(Less(V(1), V(4)), V(2))));
  }

  /** Over a whole list the two sides of the check differ by exactly delta^2 * sum(chi^i * (x_i y_i - z_i)). */
  lemma {:induction false} ListGap<F(!new)>(r: Ring<F>, delta: F, chi: F, ts: seq<TripleP<F>>, ss: seq<TripleV<F>>)
    requires IsRing(r) && AuthTriples(r, delta, ts, ss)
    ensures Gap(r, delta, PowerSum(r, chi, Bs(r, delta, ss)), PowerSum(r, chi, A0s(r, ts)),
                PowerSum(r, chi, A1s(r, ts)))
         == r.mul(r.mul(delta, delta), PowerSum(r, chi, Defects(r, ts)))
  {
    hide Pow, A0, A1, B, Defect, AuthTriple;
    var dd := r.mul(delta, delta);
    if ts == [] {
      MulZero(r, r.neg(delta));
      MulZero(r, dd);
      AddZero(r, r.zero);
      NegZero(r);
    } else {
      var n := |ts| - 1;
      ListGap(r, delta, chi, ts[..n], ss[..n]);
      assert A0s(r, ts)[..n] == A0s(r, ts[..n]) && A1s(r, ts)[..n] == A1s(r, ts[..n]);
      assert Bs(r, delta, ss)[..n] == Bs(r, delta, ss[..n]) && Defects(r, ts)[..n] == Defects(r, ts[..n]);
      var w := Pow(r, chi, n + 1);
      GapStep(r, delta, PowerSum(r, chi, Bs(r, delta, ss[..n])), PowerSum(r, chi, A0s(r, ts[..n])),
              PowerSum(r, chi, A1s(r, ts[..n])), B(r, delta, ss[n]), A0(r, ts[n]), A1(r, ts[n]), w);
      TripleGap(r, delta, ts[n], ss[n]);
      Distribute(r, dd, PowerSum(r, chi, Defects(r, ts[..n])), r.mul(Defect(r, ts[n]), w));
      MulAssoc(r, dd, Defect(r, ts[n]), w);
    }
  }

  // ---- the mask (a degree-one VOPE) ----

  /** The verifier's test on the message (u, v). */
  ghost predicate MultiplyAccepts<F>(r: Ring<F>, delta: F, chi: F, ss: seq<TripleV<F>>, maskKey: F, u: F, v: F) {
    r.add(PowerSum(r, chi, Bs(r, delta, ss)), maskKey) == r.add(u, r.mul(r.neg(delta), v))
  }

  ghost function HonestU<F>(r: Ring<F>, chi: F, ts: seq<TripleP<F>>, maskMac: F): F {
    r.add(PowerSum(r, chi, A0s(r, ts)), maskMac)
  }

  ghost function HonestV<F>(r: Ring<F>, chi: F, ts: seq<TripleP<F>>, mask: F): F {
    r.add(PowerSum(r, chi, A1s(r, ts)), mask)
  }

  /** The check on any list of authenticated triples accepts exactly when
      delta^2 * sum(chi^i * (x_i y_i - z_i)) = 0. */
  lemma MultiplyExact<F(!new)>(r: Ring<F>, delta: F, chi: F, ts: seq<TripleP<F>>, ss: seq<TripleV<F>>,
                               mask: F, maskMac: F, maskKey: F)
    requires IsRing(r) && AuthTriples(r, delta, ts, ss)
    requires maskMac == r.add(maskKey, r.mul(delta, mask))
    ensures r.Sub(r.add(PowerSum(r, chi, Bs(r, delta, ss)), maskKey),
                  r.add(HonestU(r, chi, ts, maskMac), r.mul(r.neg(delta), HonestV(r, chi, ts, mask))))
         == r.mul(r.mul(delta, delta), PowerSum(r, chi, Defects(r, ts)))
    ensures MultiplyAccepts(r, delta, chi, ss, maskKey, HonestU(r, chi, ts, maskMac), HonestV(r, chi, ts, mask))
       <==> r.mul(r.mul(delta, delta), PowerSum(r, chi, Defects(r, ts))) == r.zero
  {
    ListGap(r, delta, chi, ts, ss);
    var b, a0, a1 := PowerSum(r, chi, Bs(r, delta, ss)), PowerSum(r, chi, A0s(r, ts)), PowerSum(r, chi, A1s(r, ts));
    MaskCancels(r, delta, b, a0, a1, maskKey, mask);
    SubIsZero(r, r.add(b, maskKey),
              r.add(HonestU(r, chi, ts, maskMac), r.mul(r.neg(delta), HonestV(r, chi, ts, mask))));
  }

  lemma MaskCancels<F(!new)>(r: Ring<F>, d: F, b: F, a0: F, a1: F, k: F, u: F)
    requires IsRing(r)
    ensures Gap(r, d, r.add(b, k), r.add(a0, r.add(k, r.mul(d, u))), r.add(a1, u)) == Gap(r, d, b, a0, a1)
  {
    Identity(r, [d, b, a0, a1, k, u],
             Less(Plus(V(1), V(4)),
                  Plus(Plus(V(2), Plus(V(4), Times(V(0), V(5)))), Times(Minus(V(0)), Plus(V(3), V(5))))),
             Less(V(1), Plus(V(2), Times(Minus(V(0)), V(3)))));
  }

  ghost predicate AllCorrect<F>(r: Ring<F>, ts: seq<TripleP<F>>) {
    forall i :: 0 <= i < |ts| ==> ts[i].2.x == r.mul(ts[i].0.x, ts[i].1.x)
  }

  lemma CorrectTriplesAccepted<F(!new)>(r: Ring<F>, delta: F, chi: F, ts: seq<TripleP<F>>, ss: seq<TripleV<F>>,
                                        mask: F, maskMac: F, maskKey: F)
    requires IsRing(r) && AuthTriples(r, delta, ts, ss)
    requires maskMac == r.add(maskKey, r.mul(delta, mask))
    requires AllCorrect(r, ts)
    ensures MultiplyAccepts(r, delta, chi, ss, maskKey, HonestU(r, chi, ts, maskMac), HonestV(r, chi, ts, mask))
  {
    forall i | 0 <= i < |ts| ensures Defects(r, ts)[i] == r.zero {
      SubIsZero(r, r.mul(ts[i].0.x, ts[i].1.x), ts[i].2.x);
    }
    PowerSumZero(r, chi, Defects(r, ts));
    MulZero(r, r.mul(delta, delta));
    MultiplyExact(r, delta, chi, ts, ss, mask, maskMac, maskKey);
  }

  /** Over a field, with delta non-zero, an incorrect list of n triples passes for at most n challenges. */
  lemma FewChallengesAccept<F(!new)>(r: Ring<F>, delta: F, ts: seq<TripleP<F>>, ss: seq<TripleV<F>>,
                                     mask: F, maskMac: F, maskKey: F, chis: set<F>)
    requires IsDomain(r) && delta != r.zero && AuthTriples(r, delta, ts, ss)
    requires maskMac == r.add(maskKey, r.mul(delta, mask))
    requires !AllCorrect(r, ts)
    requires forall chi :: chi in chis ==>
               MultiplyAccepts(r, delta, chi, ss, maskKey, HonestU(r, chi, ts, maskMac), HonestV(r, chi, ts, mask))
    ensures |chis| <= |ts|
  {
    var ds := Defects(r, ts);
    forall chi | chi in chis ensures PowerSum(r, chi, ds) == r.zero {
      MultiplyExact(r, delta, chi, ts, ss, mask, maskMac, maskKey);
      assert At((delta, delta)) && At((r.mul(delta, delta), PowerSum(r, chi, ds)));
    }
    var i :| 0 <= i < |ts| && ts[i].2.x != r.mul(ts[i].0.x, ts[i].1.x);
    SubIsZero(r, r.mul(ts[i].0.x, ts[i].1.x), ts[i].2.x);
    assert ds[i] != r.zero;
    PowerSumRoots(r, ds, chis);
  }

  lemma QuadraticGap<F(!new)>(r: Ring<F>, d: F, b: F, hu: F, hv: F, u: F, v: F, dd: F)
    requires IsRing(r) && r.Sub(b, r.add(hu, r.mul(r.neg(d), hv))) == dd && b == r.add(u, r.mul(r.neg(d), v))
    ensures r.add(r.Sub(hu, u), r.mul(d, r.Sub(v, hv))) == r.neg(dd)
  {
    Identity(r, [d, hu, hv, u, v],
             Plus(Less(V(1), V(3)), Times(V(0), Less(V(4), V(2)))),
             Minus(Less(Plus(V(3), Times(Minus(V(0)), V(4))), Plus(V(1), Times(Minus(V(0)), V(2))))));
  }

  lemma EvalFirst<F(!new)>(r: Ring<F>, a: F, c: seq<F>, x: F)
    ensures Eval(r, [a] + c, x) == r.add(a, r.mul(x, Eval(r, c, x)))
  {
    assert ([a] + c)[1..] == c;
  }

  lemma EvalQuadratic<F(!new)>(r: Ring<F>, c0: F, c1: F, c2: F, x: F)
    requires IsRing(r)
    ensures Eval(r, [c0, c1, c2], x) == r.add(r.add(c0, r.mul(x, c1)), r.mul(r.mul(x, x), c2))
  {
    EvalFirst(r, c2, [], x);
    EvalFirst(r, c1, [c2], x);
    EvalFirst(r, c0, [c1, c2], x);
    MulZero(r, x);
    AddZero(r, c2);
    assert [c2] + [] == [c2] && [c1] + [c2] == [c1, c2] && [c0] + [c1, c2] == [c0, c1, c2];
    assert Eval(r, [], x) == r.zero;
    hide Eval;
    Identity(r, [c0, c1, c2, x],
             Plus(V(0), Times(V(3), Plus(V(1), Times(V(3), V(2))))),
             Plus(Plus(V(0), Times(V(3), V(1))), Times(Times(V(3), V(3)), V(2))));
  }

  /** Against a prover that sends whatever it likes: for a challenge that does not cancel the defects, any message
      (u, v) is accepted for at most two deltas. The prover's values and macs are fixed; the keys follow delta. */
  lemma FewDeltasAccept<F(!new)>(r: Ring<F>, chi: F, ts: seq<TripleP<F>>, mask: F, maskMac: F, u: F, v: F,
                                 keys: F -> seq<TripleV<F>>, maskKey: F -> F, deltas: set<F>)
    requires IsDomain(r) && PowerSum(r, chi, Defects(r, ts)) != r.zero
    requires forall d :: d in deltas ==> AuthTriples(r, d, ts, keys(d)) && maskMac == r.add(maskKey(d), r.mul(d, mask))
    requires forall d :: d in deltas ==> MultiplyAccepts(r, d, chi, keys(d), maskKey(d), u, v)
    ensures |deltas| <= 2
  {
    hide PowerSum, Defects, AuthTriple, Eval;
    var hu, hv, top := HonestU(r, chi, ts, maskMac), HonestV(r, chi, ts, mask), PowerSum(r, chi, Defects(r, ts));
    var c := [r.Sub(hu, u), r.Sub(v, hv), top];
    forall d | d in deltas ensures Eval(r, c, d) == r.zero {
      MultiplyExact(r, d, chi, ts, keys(d), mask, maskMac, maskKey(d));
      QuadraticGap(r, d, r.add(PowerSum(r, chi, Bs(r, d, keys(d))), maskKey(d)), hu, hv, u, v, r.mul(r.mul(d, d), top));
      EvalQuadratic(r, r.Sub(hu, u), r.Sub(v, hv), top, d);
      AddComm(r, r.neg(r.mul(r.mul(d, d), top)), r.mul(r.mul(d, d), top));
      AddNeg(r, r.mul(r.mul(d, d), top));
    }
    assert c[2] == top;
    RootBound(r, c, deltas);
  }

  // ---- the running state of the check ----

  lemma EmptyDot<F>(r: Ring<F>)
    ensures Dot(r, [], []) == r.zero
  {
  }

  /** A random element of the extension field, put together from one random value per basis element. */
  method DrawMask<F(!new, ==)>(fcom: FComProver<F>) returns (mask: F, maskMac: F)
    requires IsRing(fcom.r) && Productive(fcom.supply)
    modifies fcom
    ensures fcom.used == old(fcom.used) + |fcom.basis|
    ensures var (us, pool) := DrawN(fcom.supply, old(fcom.State()), |fcom.basis|);
            && fcom.State() == pool
            && mask == Dot(fcom.r, fcom.basis, Values(us)) && maskMac == Dot(fcom.r, fcom.basis, Macs(us))
  {
    hide Dot;
    var r := fcom.r;
    mask, maskMac := r.zero, r.zero;
    EmptyDot(r);
    assert fcom.basis[..0] == [];
    ghost var us: seq<MacProver<F>> := [];
    assert Values(us) == [] && Macs(us) == [];
    for i := 0 to |fcom.basis|
      invariant fcom.used == old(fcom.used) + i
      invariant (us, fcom.State()) == DrawN(fcom.supply, old(fcom.State()), i)
      invariant mask == Dot(r, fcom.basis[..i], Values(us))
      invariant maskMac == Dot(r, fcom.basis[..i], Macs(us))
    {
      var e := fcom.Random();
      MulComm(r, e.x, fcom.basis[i]);
      MulComm(r, e.m, fcom.basis[i]);
      mask := r.add(mask, r.mul(e.x, fcom.basis[i]));
      maskMac := r.add(maskMac, r.mul(e.m, fcom.basis[i]));
      assert fcom.basis[..i + 1] == fcom.basis[..i] + [fcom.basis[i]];
      DotGrows(r, fcom.basis[..i], fcom.basis[i], us, e);
      us := us + [e];
    }
    assert fcom.basis[..|fcom.basis|] == fcom.basis;
  }

  method DrawMaskKey<F(!new, ==)>(fcom: FComVerifier<F>) returns (maskKey: F)
    requires IsRing(fcom.r) && Productive(fcom.supply)
    modifies fcom
    ensures fcom.used == old(fcom.used) + |fcom.basis|
    ensures var (vs, pool) := DrawN(fcom.supply, old(fcom.State()), |fcom.basis|);
            fcom.State() == pool && maskKey == Dot(fcom.r, fcom.basis, Keys(vs))
  {
    hide Dot;
    var r := fcom.r;
    maskKey := r.zero;
    EmptyDot(r);
    assert fcom.basis[..0] == [];
    ghost var vs: seq<MacVerifier<F>> := [];
    assert Keys(vs) == [];
    for i := 0 to |fcom.basis|
      invariant fcom.used == old(fcom.used) + i
      invariant (vs, fcom.State()) == DrawN(fcom.supply, old(fcom.State()), i)
      invariant maskKey == Dot(r, fcom.basis[..i], Keys(vs))
    {
      var e := fcom.Random();
      MulComm(r, e.k, fcom.basis[i]);
      maskKey := r.add(maskKey, r.mul(e.k, fcom.basis[i]));
      assert fcom.basis[..i + 1] == fcom.basis[..i] + [fcom.basis[i]];
      KeyDotGrows(r, fcom.basis[..i], fcom.basis[i], vs, e);
      vs := vs + [e];
    }
    assert fcom.basis[..|fcom.basis|] == fcom.basis;
  }

  class StateProver<F(!new, ==)> {
    const r: Ring<F>
    const chi: F
    var sumA0: F
    var sumA1: F
    var chiPower: F
    var cnt: nat
    ghost var pushed: seq<TripleP<F>>

    ghost predicate Valid()
      reads this
    {
      && IsRing(r)
      && sumA0 == PowerSum(r, chi, A0s(r, pushed)) && sumA1 == PowerSum(r, chi, A1s(r, pushed))
      && chiPower == Pow(r, chi, |pushed| + 1) && cnt == |pushed|
    }

    constructor (r: Ring<F>, chi: F)
      requires IsRing(r)
      ensures Valid() && pushed == [] && this.r == r && this.chi == chi
    {
      this.r, this.chi := r, chi;
      sumA0, sumA1, chiPower, cnt, pushed := r.zero, r.zero, chi, 0, [];
      new;
      PowOne(r, chi);
    }

    method Reset()
      requires IsRing(r)
      modifies this
      ensures Valid() && pushed == []
    {
      sumA0, sumA1, chiPower, cnt, pushed := r.zero, r.zero, chi, 0, [];
      PowOne(r, chi);
    }

    method Push(t: TripleP<F>)
      requires Valid()
      modifies this
      ensures Valid() && pushed == old(pushed) + [t]
    {
      sumA0 := r.add(sumA0, r.mul(A0(r, t), chiPower));
      sumA1 := r.add(sumA1, r.mul(A1(r, t), chiPower));
      chiPower := r.mul(chiPower, chi);
      cnt := cnt + 1;
      pushed := pushed + [t];
      assert A0s(r, pushed) == A0s(r, old(pushed)) + [A0(r, t)];
      assert A1s(r, pushed) == A1s(r, old(pushed)) + [A1(r, t)];
      PowerSumSnoc(r, chi, A0s(r, old(pushed)), A0(r, t));
      PowerSumSnoc(r, chi, A1s(r, old(pushed)), A1(r, t));
    }

    /** The message of the finished check; the state starts over. */
    method Finalize(fcom: FComProver<F>) returns (u: F, v: F, n: nat)
      requires Valid() && fcom.r == r && Productive(fcom.supply)
      modifies this, fcom
      ensures Valid() && pushed == [] && n == old(|pushed|)
      ensures fcom.used == old(fcom.used) + |fcom.basis|
      ensures var (us, pool) := DrawN(fcom.supply, old(fcom.State()), |fcom.basis|);
              && fcom.State() == pool
              && u == HonestU(r, chi, old(pushed), Dot(r, fcom.basis, Macs(us)))
              && v == HonestV(r, chi, old(pushed), Dot(r, fcom.basis, Values(us)))
    {
      var mask, maskMac := DrawMask(fcom);
      u := r.add(sumA0, maskMac);
      v := r.add(sumA1, mask);
      n := cnt;
      Reset();
    }
  }

  class StateVerifier<F(!new, ==)> {
    const r: Ring<F>
    const delta: F
    const chi: F
    var sumB: F
    var powerChi: F
    var cnt: nat
    ghost var pushed: seq<TripleV<F>>

    ghost predicate Valid()
      reads this
    {
      && IsRing(r)
      && sumB == PowerSum(r, chi, Bs(r, delta, pushed))
      && powerChi == Pow(r, chi, |pushed| + 1) && cnt == |pushed|
    }

    constructor (r: Ring<F>, delta: F, chi: F)
      requires IsRing(r)
      ensures Valid() && pushed == [] && this.r == r && this.chi == chi && this.delta == delta
    {
      this.r, this.chi, this.delta := r, chi, delta;
      sumB, powerChi, cnt, pushed := r.zero, chi, 0, [];
      new;
      PowOne(r, chi);
    }

    method Reset()
      requires IsRing(r)
      modifies this
      ensures Valid() && pushed == []
    {
      sumB, powerChi, cnt, pushed := r.zero, chi, 0, [];
      PowOne(r, chi);
    }

    method Push(t: TripleV<F>)
      requires Valid()
      modifies this
      ensures Valid() && pushed == old(pushed) + [t]
    {
      sumB := r.add(sumB, r.mul(B(r, delta, t), powerChi));
      powerChi := r.mul(powerChi, chi);
      cnt := cnt + 1;
      pushed := pushed + [t];
      assert Bs(r, delta, pushed) == Bs(r, delta, old(pushed)) + [B(r, delta, t)];
      PowerSumSnoc(r, chi, Bs(r, delta, old(pushed)), B(r, delta, t));
    }

    method Finalize(fcom: FComVerifier<F>, u: F, v: F) returns (ok: bool, n: nat)
      requires Valid() && fcom.r == r && fcom.delta == delta && Productive(fcom.supply)
      modifies this, fcom
      ensures Valid() && pushed == [] && n == old(|pushed|)
      ensures fcom.used == old(fcom.used) + |fcom.basis|
      ensures var (vs, pool) := DrawN(fcom.supply, old(fcom.State()), |fcom.basis|);
              && fcom.State() == pool
              && (ok <==> MultiplyAccepts(r, delta, chi, old(pushed), Dot(r, fcom.basis, Keys(vs)), u, v))
    {
      var maskKey := DrawMaskKey(fcom);
      ok := r.add(sumB, maskKey) == r.add(u, r.mul(r.neg(delta), v));
      n := cnt;
      Reset();
    }
  }

  /** What a finished check sends. */
  datatype ProductProof<F> = ProductProof(u: F, v: F)

  /** The message about the triples ts, masked with the random values us (one per basis element). */
  ghost function HonestProof<F>(r: Ring<F>, basis: seq<F>, chi: F, ts: seq<TripleP<F>>,
                                us: seq<MacProver<F>>): ProductProof<F>
  {
    if |us| == |basis|
    then ProductProof(HonestU(r, chi, ts, Dot(r, basis, Macs(us))), HonestV(r, chi, ts, Dot(r, basis, Values(us))))
    else ProductProof(r.zero, r.zero)
  }

  /** What the two finalizations decide, for masks drawn from matching pools. */
  lemma CheckOutcome<F(!new)>(r: Ring<F>, delta: F, basis: seq<F>, chi: F, ts: seq<TripleP<F>>, ss: seq<TripleV<F>>,
                              us: seq<MacProver<F>>, vs: seq<MacVerifier<F>>)
    requires IsRing(r) && AuthTriples(r, delta, ts, ss) && |us| == |basis| && AuthAll(r, delta, us, vs)
    ensures var ok := MultiplyAccepts(r, delta, chi, ss, Dot(r, basis, Keys(vs)),
                                      HonestU(r, chi, ts, Dot(r, basis, Macs(us))),
                                      HonestV(r, chi, ts, Dot(r, basis, Values(us))));
            && (ok <==> r.mul(r.mul(delta, delta), PowerSum(r, chi, Defects(r, ts))) == r.zero)
            && (AllCorrect(r, ts) ==> ok)
  {
    var mask, maskMac, maskKey := Dot(r, basis, Values(us)), Dot(r, basis, Macs(us)), Dot(r, basis, Keys(vs));
    DotAuth(r, delta, basis, us, vs);
    MultiplyExact(r, delta, chi, ts, ss, mask, maskMac, maskKey);
    if AllCorrect(r, ts) {
      CorrectTriplesAccepted(r, delta, chi, ts, ss, mask, maskMac, maskKey);
    }
  }

  method RunPush<F(!new, ==)>(sp: StateProver<F>, sv: StateVerifier<F>, ts: seq<TripleP<F>>, ss: seq<TripleV<F>>)
    requires sp.Valid() && sv.Valid() && sp.pushed == [] && sv.pushed == [] && |ts| == |ss|
    modifies sp, sv
    ensures sp.Valid() && sv.Valid() && sp.pushed == ts && sv.pushed == ss
  {
    hide StateProver.Valid, StateVerifier.Valid;
    for i := 0 to |ts|
      invariant sp.Valid() && sp.pushed == ts[..i]
      invariant sv.Valid() && sv.pushed == ss[..i]
    {
      sp.Push(ts[i]);
      sv.Push(ss[i]);
    }
    assert ts[..|ts|] == ts && ss[..|ts|] == ss;
  }

  /** A whole check run by both parties, about exactly the triples given: it accepts exactly when
      delta^2 * sum(chi^i * defect_i) = 0, always when the triples are correct, and the pools stay matched. */
  method RunCheckMultiply<F(!new, ==)>(p: FComProver<F>, v: FComVerifier<F>, chi: F,
                                       ts: seq<TripleP<F>>, ss: seq<TripleV<F>>)
    returns (ok: bool, sent: ProductProof<F>)
    requires Linked(p, v) && AuthTriples(p.r, v.delta, ts, ss)
    modifies p, v
    ensures Linked(p, v) && sent == HonestProof(p.r, p.basis, chi, ts, p.Voles(old(p.used), |p.basis|))
    ensures ok <==> p.r.mul(p.r.mul(v.delta, v.delta), PowerSum(p.r, chi, Defects(p.r, ts))) == p.r.zero
    ensures AllCorrect(p.r, ts) ==> ok
    ensures p.used == old(p.used) + |p.basis| && v.used == old(v.used) + |p.basis|
  {
    hide DrawN, PowerSum, MultiplyAccepts, HonestU, HonestV, Dot, AllCorrect, Defects, AuthTriple, StateProver.Valid,
         StateVerifier.Valid;
    hide p.Counted;
    var sp := new StateProver(p.r, chi);
    var sv := new StateVerifier(p.r, v.delta, chi);
    RunPush(sp, sv, ts, ss);
    DrawNCorrelated(p.r, v.delta, p.prime, p.supply, p.State(), v.supply, v.State(), |p.basis|);
    NextVoles(p, v, |p.basis|);
    ghost var us, vs := DrawN(p.supply, p.State(), |p.basis|).0, DrawN(v.supply, v.State(), |p.basis|).0;
    CheckOutcome(p.r, v.delta, p.basis, chi, ts, ss, us, vs);
    var u, w, n := sp.Finalize(p);
    sent := ProductProof(u, w);
    ok, n := sv.Finalize(v, u, w);
    StillCounted(p);
  }
}
