/** The lists of checks of fixed-point multiplications and of seeds over the prime field alone, for whatever was sent,
    and what they mean. */
module CheddaFpLists {
  import opened Arith
  import opened Rings
  import opened PrimeField
  import opened Polynomials
  import opened Homcom
  import QuickSilver
  import opened EdabitConversionRun
  import opened HdQuicksilver
  import opened HdValues
  import opened CheddaChecks
  import opened CheddaConv
  import opened CheddaLists
  import opened CheddaFpMult

  type FpTripleP = (MacProver<Fp>, MacProver<Fp>, MacProver<Fp>)
  type FpTripleV = (MacVerifier<Fp>, MacVerifier<Fp>, MacVerifier<Fp>)

  // ---- committed seeds ----

  /** (x - 1) * x, for a committed x. */
  function SeedBitPoly(m: MacProver<Fp>): seq<Fp> {
    MulSeq(FP, HdSubCst(FP, FromMac(FP, m), 1), FromMac(FP, m))
  }

  function SeedBitKey(delta: Fp, l: MacVerifier<Fp>): HdKey<Fp> {
    KeyMul(FP, KeySubCst(FP, delta, KeyFromMac(FP, l), 1), KeyFromMac(FP, l))
  }

  function SeedBitPolys(ms: seq<MacProver<Fp>>): (ps: seq<seq<Fp>>)
    ensures |ps| == |ms|
  {
    seq(|ms|, i requires 0 <= i < |ms| => SeedBitPoly(ms[i]))
  }

  function SeedBitKeys(delta: Fp, ls: seq<MacVerifier<Fp>>): (ks: seq<HdKey<Fp>>)
    ensures |ks| == |ls|
  {
    seq(|ls|, i requires 0 <= i < |ls| => SeedBitKey(delta, ls[i]))
  }

  lemma SeedBitHd(delta: Fp, m: MacProver<Fp>, l: MacVerifier<Fp>)
    requires Auth(FP, delta, m, l)
    ensures FromMac(FP, m) != []
    ensures Hd(FP, delta, SeedBitPoly(m), SeedBitKey(delta, l), FpMul(FP.Sub(m.x, 1), m.x), 2)
  {
    FpIsRing();
    hide Eval;
    FromMacAuth(FP, delta, m, l);
    hide MulSeq, KeyMul, HdSubCst, KeySubCst, IsRing, FpMul;
    SubCstHd(FP, delta, FromMac(FP, m), KeyFromMac(FP, l), m.x, 1, 1);
    MulHd(FP, delta, HdSubCst(FP, FromMac(FP, m), 1), KeySubCst(FP, delta, KeyFromMac(FP, l), 1), FP.Sub(m.x, 1), 1,
          FromMac(FP, m), KeyFromMac(FP, l), m.x, 1);
  }

  /** (x - 1) * x is zero exactly for the two bits. */
  lemma BitVanishes(x: Fp)
    ensures FpMul(FP.Sub(x, 1), x) == 0 <==> x <= 1
  {
    FpIsRing();
    SubIsZero(FP, x, 1);
    MulZero(FP, FP.Sub(x, 1));
    MulZero(FP, x);
    hide IsRing, FpMul, ToFp;
    if FpMul(FP.Sub(x, 1), x) == 0 {
      FactorZero(FP.Sub(x, 1), x);
    }
  }

  lemma FactorZero(a: Fp, b: Fp)
    requires FpMul(a, b) == 0
    ensures a == 0 || b == 0
  {
    NoZeroDivisors(a, b);
  }

  /** Whatever was committed: the checks of a seed mean that it consists of bits. */
  lemma SeedMean(delta: Fp, ms: seq<MacProver<Fp>>, ls: seq<MacVerifier<Fp>>)
    requires AuthAll(FP, delta, ms, ls)
    ensures Mean(FP, delta, SeedBitPolys(ms), SeedBitKeys(delta, ls), forall i :: 0 <= i < |ms| ==> ms[i].x <= 1)
  {
    var ps, ks := SeedBitPolys(ms), SeedBitKeys(delta, ls);
    hide Auth, SeedBitPoly, SeedBitKey, Eval, FpMul;
    forall i | 0 <= i < |ms|
      ensures HdAuth(FP, delta, ps[i], ks[i]) && ps[i] != []
      ensures Value(ps[i]) == 0 <==> ms[i].x <= 1
    {
      SeedBitHd(delta, ms[i], ls[i]);
      BitVanishes(ms[i].x);
    }
    assert forall i :: 0 <= i < |ms| ==> ClearValues(ps)[i] == Value(ps[i]);
  }

  /** Values that are not all bits pass the checks of a seed for at most as many challenges as there are values. */
  lemma FewChallengesAcceptSeed(delta: Fp, ms: seq<MacProver<Fp>>, ls: seq<MacVerifier<Fp>>, mask: Fp -> seq<Fp>,
                                chis: set<Fp>)
    requires delta != 0 && AuthAll(FP, delta, ms, ls) && Proper(SeedBitPolys(ms))
    requires !(forall i :: 0 <= i < |ms| ==> ms[i].x <= 1)
    requires Accepting(FP, delta, SeedBitPolys(ms), SeedBitKeys(delta, ls), mask, chis)
    ensures |chis| <= |ms|
  {
    hide IsDomain, Accepting, Mean, Auth, SeedBitPolys, SeedBitKeys;
    FpIsDomain();
    SeedMean(delta, ms, ls);
    FewAccepting(FP, delta, SeedBitPolys(ms), SeedBitKeys(delta, ls), mask, chis);
  }

  // ---- random bits of the prime field ----

  ghost predicate HdBitOk(pred: Pred, dp: Fp, c: seq<Fp>, k: HdKey<Fp>, x: Fp) {
    x <= 1 && Hd(FP, dp, c, k, x, pred.DP())
  }

  ghost predicate HdBitsOk(pred: Pred, dp: Fp, cs: seq<seq<Fp>>, ks: seq<HdKey<Fp>>, xs: seq<Fp>) {
    |cs| == |ks| == |xs| && forall i :: 0 <= i < |cs| ==> HdBitOk(pred, dp, cs[i], ks[i], xs[i])
  }

  lemma BitParts(pred: Pred, delta: Fp, rs: seq<seq<Fp>>, ks: seq<HdKey<Fp>>, xs: seq<Fp>, i: nat)
    requires HdBitsOk(pred, delta, rs, ks, xs) && i < |rs|
    ensures |rs| == |ks| == |xs| && xs[i] <= 1 && Hd(FP, delta, rs[i], ks[i], xs[i], pred.DP())
  {
    assert HdBitOk(pred, delta, rs[i], ks[i], xs[i]);
  }

  /** The bits that corrections make of random bits. */
  function CorrectedBits(xs: seq<Fp>, cs: seq<bool>): (bs: seq<bool>)
    ensures |bs| == |xs|
  {
    seq(|xs|, i requires 0 <= i < |xs| => (xs[i] == 1) != (i < |cs| && cs[i]))
  }

  lemma CorrectedBit(x: Fp, c: bool)
    requires x <= 1
    ensures Flipped(c, x) == BitFp((x == 1) != c)
  {
    FlippedBit(c, x);
  }

  // ---- the two checks of one multiplication ----

  /** The product, as a polynomial. */
  function ProductPoly(t: FpTripleP): seq<Fp> {
    MulSeq(FP, FromMac(FP, t.0), FromMac(FP, t.1))
  }

  function ProductKey(s: FpTripleV): HdKey<Fp> {
    KeyMul(FP, KeyFromMac(FP, s.0), KeyFromMac(FP, s.1))
  }

  /** A corrected bit scaled for the product: below position f at once, from f on as part of the upper bits. */
  function LowTerm(a: seq<Fp>, i: nat, f: nat): seq<Fp> {
    if i < f then ScaleSeq(FP, ToFp(Pow2(i)), a)
    else ScaleSeq(FP, ToFp(Pow2(f)), ScaleSeq(FP, ToFp(Pow2(i - f)), a))
  }

  function LowKey(b: HdKey<Fp>, i: nat, f: nat): HdKey<Fp> {
    if i < f then KeyScale(FP, ToFp(Pow2(i)), b)
    else KeyScale(FP, ToFp(Pow2(f)), KeyScale(FP, ToFp(Pow2(i - f)), b))
  }

  /** The product with all corrected bits taken off. */
  function FullPoly(z: seq<Fp>, rs: seq<seq<Fp>>, cs: seq<bool>, f: nat): seq<Fp> {
    if rs == [] || |cs| != |rs| then z
    else
      var n := |rs| - 1;
      HdSub(FP, FullPoly(z, rs[..n], cs[..n], f), LowTerm(FlipP(cs[n], rs[n]), n, f))
  }

  function FullKey(delta: Fp, z: HdKey<Fp>, ks: seq<HdKey<Fp>>, cs: seq<bool>, f: nat): HdKey<Fp> {
    if ks == [] || |cs| != |ks| then z
    else
      var n := |ks| - 1;
      KeySub(FP, delta, FullKey(delta, z, ks[..n], cs[..n], f), LowKey(FlipV(delta, cs[n], ks[n]), n, f))
  }

  /** The claimed upper part with the corrected bits from f on taken off. */
  function HighPoly(z: seq<Fp>, rs: seq<seq<Fp>>, cs: seq<bool>, f: nat): seq<Fp> {
    if rs == [] || |cs| != |rs| then z
    else
      var n := |rs| - 1;
      var rest := HighPoly(z, rs[..n], cs[..n], f);
      if n < f then rest else HdSub(FP, rest, ScaleSeq(FP, ToFp(Pow2(n - f)), FlipP(cs[n], rs[n])))
  }

  function HighKey(delta: Fp, z: HdKey<Fp>, ks: seq<HdKey<Fp>>, cs: seq<bool>, f: nat): HdKey<Fp> {
    if ks == [] || |cs| != |ks| then z
    else
      var n := |ks| - 1;
      var rest := HighKey(delta, z, ks[..n], cs[..n], f);
      if n < f then rest
      else KeySub(FP, delta, rest, KeyScale(FP, ToFp(Pow2(n - f)), FlipV(delta, cs[n], ks[n])))
  }

  function DegreeAt(i: nat, start: nat, first: nat, d: nat): nat {
    if i <= start then first else d
  }

  /** One corrected bit, whatever the correction. */
  lemma FlipHd(delta: Fp, a: seq<Fp>, b: HdKey<Fp>, x: Fp, d: nat, c: bool)
    requires Hd(FP, delta, a, b, x, d) && x <= 1
    ensures |a| >= 2 && b.degree >= 1
    ensures Hd(FP, delta, FlipP(c, a), FlipV(delta, c, b), BitFp((x == 1) != c), d)
  {
    FpIsRing();
    assert |a| >= 2 && b.degree >= 1;
    CorrectedBit(x, c);
    hide Hd, IsRing, HdSubCst, KeySubCst, ScaleSeq, KeyScale, Eval, FpMul;
    if c {
      SubCstHd(FP, delta, a, b, x, d, 1);
      ScaleHd(FP, delta, HdSubCst(FP, a, 1), KeySubCst(FP, delta, b, 1), FP.Sub(x, 1), d, FpNeg(1));
    }
  }

  /** What one bit takes off either value. */
  function LowValue(b: bool, i: nat, f: nat): Fp {
    if i < f then FpMul(ToFp(Pow2(i)), BitFp(b)) else FpMul(ToFp(Pow2(f)), FpMul(ToFp(Pow2(i - f)), BitFp(b)))
  }

  lemma LowHd(delta: Fp, a: seq<Fp>, k: HdKey<Fp>, b: bool, d: nat, i: nat, f: nat)
    requires Hd(FP, delta, a, k, BitFp(b), d)
    ensures Hd(FP, delta, LowTerm(a, i, f), LowKey(k, i, f), LowValue(b, i, f), d)
  {
    FpIsRing();
    hide Hd, IsRing, ScaleSeq, KeyScale, ToFp, Pow2, FpMul, BitFp;
    if i < f {
      ScaleHd(FP, delta, a, k, BitFp(b), d, ToFp(Pow2(i)));
    } else {
      ScaleHd(FP, delta, a, k, BitFp(b), d, ToFp(Pow2(i - f)));
      ScaleHd(FP, delta, ScaleSeq(FP, ToFp(Pow2(i - f)), a), KeyScale(FP, ToFp(Pow2(i - f)), k),
              FpMul(ToFp(Pow2(i - f)), BitFp(b)), d, ToFp(Pow2(f)));
    }
  }

  lemma FullGrows(z: Fp, bs: seq<bool>, f: nat, i: nat)
    requires i < |bs|
    ensures FullRemainder(z, bs[..i + 1], f) == FP.Sub(FullRemainder(z, bs[..i], f), LowValue(bs[i], i, f))
  {
    assert bs[..i + 1][..i] == bs[..i];
  }

  lemma HighGrowsBy(z: Fp, bs: seq<bool>, f: nat, i: nat)
    requires i < |bs|
    ensures HighRemainder(z, bs[..i + 1], f)
         == if i < f then HighRemainder(z, bs[..i], f)
            else FP.Sub(HighRemainder(z, bs[..i], f), FpMul(ToFp(Pow2(i - f)), BitFp(bs[i])))
  {
    assert bs[..i + 1][..i] == bs[..i];
  }

  lemma NoTerms(delta: Fp, z: seq<Fp>, zk: HdKey<Fp>, x: Fp, h: seq<Fp>, hk: HdKey<Fp>, y: Fp, rs: seq<seq<Fp>>,
                ks: seq<HdKey<Fp>>, cs: seq<bool>, bs: seq<bool>, f: nat)
    ensures FullPoly(z, rs[..0], cs[..0], f) == z && FullKey(delta, zk, ks[..0], cs[..0], f) == zk
    ensures HighPoly(h, rs[..0], cs[..0], f) == h && HighKey(delta, hk, ks[..0], cs[..0], f) == hk
    ensures FullRemainder(x, bs[..0], f) == x && HighRemainder(y, bs[..0], f) == y
  {
    assert bs[..0] == [];
  }

  /** Taking off the bit at position i. */
  lemma NextTerm(delta: Fp, z: seq<Fp>, zk: HdKey<Fp>, h: seq<Fp>, hk: HdKey<Fp>, rs: seq<seq<Fp>>,
                 ks: seq<HdKey<Fp>>, cs: seq<bool>, f: nat, i: nat)
    requires i < |rs| == |ks| == |cs|
    ensures var a, b := FlipP(cs[i], rs[i]), FlipV(delta, cs[i], ks[i]);
            && FullPoly(z, rs[..i + 1], cs[..i + 1], f)
               == HdSub(FP, FullPoly(z, rs[..i], cs[..i], f), LowTerm(a, i, f))
            && FullKey(delta, zk, ks[..i + 1], cs[..i + 1], f)
               == KeySub(FP, delta, FullKey(delta, zk, ks[..i], cs[..i], f), LowKey(b, i, f))
            && HighPoly(h, rs[..i + 1], cs[..i + 1], f)
               == (if i < f then HighPoly(h, rs[..i], cs[..i], f)
                   else HdSub(FP, HighPoly(h, rs[..i], cs[..i], f), ScaleSeq(FP, ToFp(Pow2(i - f)), a)))
            && HighKey(delta, hk, ks[..i + 1], cs[..i + 1], f)
               == if i < f then HighKey(delta, hk, ks[..i], cs[..i], f)
                  else
                    KeySub(FP, delta, HighKey(delta, hk, ks[..i], cs[..i], f), KeyScale(FP, ToFp(Pow2(i - f)), b))
  {
    hide FlipP, FlipV, LowTerm, LowKey, HdSub, KeySub, ScaleSeq, KeyScale, ToFp, Pow2, FP;
    assert rs[..i + 1][..i] == rs[..i] && ks[..i + 1][..i] == ks[..i] && cs[..i + 1][..i] == cs[..i];
  }

  /** The two checks after n bits have been taken off. */
  lemma {:induction false} TakenOff(pred: Pred, delta: Fp, z: seq<Fp>, zk: HdKey<Fp>, x: Fp, h: seq<Fp>, hk: HdKey<Fp>,
                                    y: Fp, rs: seq<seq<Fp>>, ks: seq<HdKey<Fp>>, xs: seq<Fp>, cs: seq<bool>, f: nat,
                                    n: nat)
    requires Hd(FP, delta, z, zk, x, 2) && Hd(FP, delta, h, hk, y, 1) && HdBitsOk(pred, delta, rs, ks, xs)
    requires |cs| == |rs| && n <= |rs|
    ensures |ks| == |rs| == |xs|
    ensures Hd(FP, delta, FullPoly(z, rs[..n], cs[..n], f), FullKey(delta, zk, ks[..n], cs[..n], f),
               FullRemainder(x, CorrectedBits(xs, cs)[..n], f), DegreeAt(n, 0, 2, pred.DP()))
    ensures Hd(FP, delta, HighPoly(h, rs[..n], cs[..n], f), HighKey(delta, hk, ks[..n], cs[..n], f),
               HighRemainder(y, CorrectedBits(xs, cs)[..n], f), DegreeAt(n, f, 1, pred.DP()))
  {
    hide Hd, IsRing, HdSub, KeySub, ScaleSeq, KeyScale, FlipP, FlipV, LowTerm, LowKey, LowValue, ToFp, Pow2, BitFp,
         FpMul, HdBitsOk, FullPoly, FullKey, HighPoly, HighKey, FullRemainder, HighRemainder, Productive, FP;
    var bs := CorrectedBits(xs, cs);
    BitsLengths(pred, delta, rs, ks, xs);
    if n == 0 {
      NoTerms(delta, z, zk, x, h, hk, y, rs, ks, cs, bs, f);
    } else {
      var i := n - 1;
      TakenOff(pred, delta, z, zk, x, h, hk, y, rs, ks, xs, cs, f, i);
      NextTerm(delta, z, zk, h, hk, rs, ks, cs, f, i);
      BitParts(pred, delta, rs, ks, xs, i);
      FlipHd(delta, rs[i], ks[i], xs[i], pred.DP(), cs[i]);
      OneTakenOff(delta, FullPoly(z, rs[..i], cs[..i], f), FullKey(delta, zk, ks[..i], cs[..i], f), x,
                  HighPoly(h, rs[..i], cs[..i], f), HighKey(delta, hk, ks[..i], cs[..i], f), y, FlipP(cs[i], rs[i]),
                  FlipV(delta, cs[i], ks[i]), pred.DP(), bs, f, i);
    }
  }

  lemma BitsLengths(pred: Pred, delta: Fp, rs: seq<seq<Fp>>, ks: seq<HdKey<Fp>>, xs: seq<Fp>)
    requires HdBitsOk(pred, delta, rs, ks, xs)
    ensures |rs| == |ks| == |xs|
  {
  }

  /** Bit i comes off the product, and from position f on off the upper part too. */
  lemma OneTakenOff(delta: Fp, z: seq<Fp>, zk: HdKey<Fp>, x: Fp, h: seq<Fp>, hk: HdKey<Fp>, y: Fp, a: seq<Fp>,
                    b: HdKey<Fp>, d: nat, bs: seq<bool>, f: nat, i: nat)
    requires i < |bs| && d >= 2 && Hd(FP, delta, a, b, BitFp(bs[i]), d)
    requires Hd(FP, delta, z, zk, FullRemainder(x, bs[..i], f), DegreeAt(i, 0, 2, d))
    requires Hd(FP, delta, h, hk, HighRemainder(y, bs[..i], f), DegreeAt(i, f, 1, d))
    ensures Hd(FP, delta, HdSub(FP, z, LowTerm(a, i, f)), KeySub(FP, delta, zk, LowKey(b, i, f)),
               FullRemainder(x, bs[..i + 1], f), d)
    ensures i >= f ==>
              Hd(FP, delta, HdSub(FP, h, ScaleSeq(FP, ToFp(Pow2(i - f)), a)),
                 KeySub(FP, delta, hk, KeyScale(FP, ToFp(Pow2(i - f)), b)), HighRemainder(y, bs[..i + 1], f), d)
    ensures i < f ==> HighRemainder(y, bs[..i + 1], f) == HighRemainder(y, bs[..i], f)
  {
    FpIsRing();
    hide Hd, IsRing, HdSub, KeySub, ScaleSeq, KeyScale, LowTerm, LowKey, LowValue, ToFp, Pow2, BitFp, FpMul,
         FullRemainder, HighRemainder;
    FullGrows(x, bs, f, i);
    HighGrowsBy(y, bs, f, i);
    LowHd(delta, a, b, bs[i], d, i, f);
    SubHd(FP, delta, z, zk, FullRemainder(x, bs[..i], f), DegreeAt(i, 0, 2, d), LowTerm(a, i, f), LowKey(b, i, f),
          LowValue(bs[i], i, f), d);
    if i >= f {
      ScaleHd(FP, delta, a, b, BitFp(bs[i]), d, ToFp(Pow2(i - f)));
      SubHd(FP, delta, h, hk, HighRemainder(y, bs[..i], f), DegreeAt(i, f, 1, d), ScaleSeq(FP, ToFp(Pow2(i - f)), a),
            KeyScale(FP, ToFp(Pow2(i - f)), b), FpMul(ToFp(Pow2(i - f)), BitFp(bs[i])), d);
    }
  }

  lemma ProductHd(delta: Fp, t: FpTripleP, s: FpTripleV)
    requires Auth(FP, delta, t.0, s.0) && Auth(FP, delta, t.1, s.1) && Auth(FP, delta, t.2, s.2)
    ensures Hd(FP, delta, FromMac(FP, t.0), KeyFromMac(FP, s.0), t.0.x, 1)
    ensures Hd(FP, delta, FromMac(FP, t.1), KeyFromMac(FP, s.1), t.1.x, 1)
    ensures Hd(FP, delta, FromMac(FP, t.2), KeyFromMac(FP, s.2), t.2.x, 1)
    ensures Hd(FP, delta, ProductPoly(t), ProductKey(s), FpMul(t.0.x, t.1.x), 2)
  {
    hide Eval;
    FpIsRing();
    FromMacAuth(FP, delta, t.0, s.0);
    FromMacAuth(FP, delta, t.1, s.1);
    FromMacAuth(FP, delta, t.2, s.2);
    hide IsRing, MulSeq, KeyMul, FpMul;
    MulHd(FP, delta, FromMac(FP, t.0), KeyFromMac(FP, s.0), t.0.x, 1, FromMac(FP, t.1), KeyFromMac(FP, s.1), t.1.x, 1);
  }

  /** The checks of one multiplication, in the order in which they are made. */
  function TriplePolys(t: FpTripleP, rs: seq<seq<Fp>>, cs: seq<bool>, f: nat): seq<seq<Fp>> {
    [HighPoly(FromMac(FP, t.2), rs, cs, f), FullPoly(ProductPoly(t), rs, cs, f)]
  }

  function TripleKeys(delta: Fp, s: FpTripleV, ks: seq<HdKey<Fp>>, cs: seq<bool>, f: nat): seq<HdKey<Fp>> {
    [HighKey(delta, KeyFromMac(FP, s.2), ks, cs, f), FullKey(delta, ProductKey(s), ks, cs, f)]
  }

  lemma TripleMean(pred: Pred, delta: Fp, t: FpTripleP, s: FpTripleV, k: nat, f: nat, rs: seq<seq<Fp>>,
                   ks: seq<HdKey<Fp>>, xs: seq<Fp>, cs: seq<bool>)
    requires QuickSilver.AuthTriple(FP, delta, t, s) && HdBitsOk(pred, delta, rs, ks, xs)
    requires |cs| == |rs| == k + 2 * f
    ensures Mean(FP, delta, TriplePolys(t, rs, cs, f), TripleKeys(delta, s, ks, cs, f),
                 Satisfies(t.0.x, t.1.x, t.2.x, k, f, CorrectedBits(xs, cs)))
  {
    hide Eval, IsRing, HdBitsOk, FullRemainder, HighRemainder, FpMul, FullPoly, FullKey, HighPoly, HighKey,
         ProductPoly, ProductKey, FromMac, KeyFromMac;
    ProductHd(delta, t, s);
    BitsLengths(pred, delta, rs, ks, xs);
    var n, bs, z := |rs|, CorrectedBits(xs, cs), FpMul(t.0.x, t.1.x);
    TakenOff(pred, delta, ProductPoly(t), ProductKey(s), z, FromMac(FP, t.2), KeyFromMac(FP, s.2), t.2.x, rs, ks, xs,
             cs, f, n);
    assert rs[..n] == rs && ks[..n] == ks && cs[..n] == cs && bs[..n] == bs;
    TwoMean(delta, HighPoly(FromMac(FP, t.2), rs, cs, f), HighKey(delta, KeyFromMac(FP, s.2), ks, cs, f),
            HighRemainder(t.2.x, bs, f), DegreeAt(n, f, 1, pred.DP()), FullPoly(ProductPoly(t), rs, cs, f),
            FullKey(delta, ProductKey(s), ks, cs, f), FullRemainder(z, bs, f), DegreeAt(n, 0, 2, pred.DP()));
  }

  lemma TwoMean(delta: Fp, a: seq<Fp>, k: HdKey<Fp>, x: Fp, d: nat, b: seq<Fp>, l: HdKey<Fp>, y: Fp, e: nat)
    requires Hd(FP, delta, a, k, x, d) && Hd(FP, delta, b, l, y, e)
    ensures Mean(FP, delta, [a, b], [k, l], x == 0 && y == 0)
  {
    hide Eval;
    MeanOne(FP, delta, a, k);
    MeanOne(FP, delta, b, l);
    hide Mean;
    MeanAppend(FP, delta, [a], [k], x == 0, [b], [l], y == 0);
    assert [a] + [b] == [a, b] && [k] + [l] == [k, l];
  }

  // ---- the checks of a batch ----

  /** The checks of the first m multiplications, with n bits and corrections for each. */
  function FpPolys(ts: seq<FpTripleP>, n: nat, f: nat, rs: seq<seq<Fp>>, cs: seq<bool>, m: nat): (ps: seq<seq<Fp>>)
    requires m <= |ts|
    ensures |ps| == 2 * m
  {
    if m == 0 then []
    else
      FpPolys(ts, n, f, rs, cs, m - 1)
      + TriplePolys(ts[m - 1], Part(rs, Times(m - 1, n), n), Part(cs, Times(m - 1, n), n), f)
  }

  function FpKeys(delta: Fp, ss: seq<FpTripleV>, n: nat, f: nat, ks: seq<HdKey<Fp>>, cs: seq<bool>,
                  m: nat): seq<HdKey<Fp>>
    requires m <= |ss|
  {
    if m == 0 then []
    else
      FpKeys(delta, ss, n, f, ks, cs, m - 1)
      + TripleKeys(delta, ss[m - 1], Part(ks, Times(m - 1, n), n), Part(cs, Times(m - 1, n), n), f)
  }

  /** The corrected bits of the first m multiplications satisfy both equations of each. */
  ghost predicate AllSatisfied(ts: seq<FpTripleP>, k: nat, f: nat, xs: seq<Fp>, cs: seq<bool>, m: nat)
    requires m <= |ts|
  {
    forall t :: 0 <= t < m ==> Satisfied(ts, k, f, xs, cs, t)
  }

  ghost predicate Satisfied(ts: seq<FpTripleP>, k: nat, f: nat, xs: seq<Fp>, cs: seq<bool>, t: nat)
    requires t < |ts|
  {
    var n := k + 2 * f;
    Satisfies(ts[t].0.x, ts[t].1.x, ts[t].2.x, k, f,
              CorrectedBits(Part(xs, Times(t, n), n), Part(cs, Times(t, n), n)))
  }

  lemma BitsPart(pred: Pred, delta: Fp, rs: seq<seq<Fp>>, ks: seq<HdKey<Fp>>, xs: seq<Fp>, cs: seq<bool>, m: nat,
                 n: nat, t: nat)
    requires HdBitsOk(pred, delta, rs, ks, xs) && |cs| == |rs| == Times(m, n) && t < m
    ensures |Part(rs, Times(t, n), n)| == |Part(cs, Times(t, n), n)| == n && Times(t, n) + n <= |rs|
    ensures Part(rs, Times(t, n), n) == rs[Times(t, n)..Times(t, n) + n]
    ensures Part(cs, Times(t, n), n) == cs[Times(t, n)..Times(t, n) + n]
    ensures HdBitsOk(pred, delta, Part(rs, Times(t, n), n), Part(ks, Times(t, n), n), Part(xs, Times(t, n), n))
  {
    hide HdBitOk;
    TimesMonotone(t + 1, m, n);
    NextTimes(t, n);
  }

  /** Whatever corrections were sent: the checks mean that the corrected bits satisfy all equations. */
  lemma {:induction false} FpMean(pred: Pred, delta: Fp, ts: seq<FpTripleP>, ss: seq<FpTripleV>, k: nat, f: nat,
                                  rs: seq<seq<Fp>>, ks: seq<HdKey<Fp>>, xs: seq<Fp>, cs: seq<bool>, m: nat)
    requires QuickSilver.AuthTriples(FP, delta, ts, ss) && HdBitsOk(pred, delta, rs, ks, xs)
    requires |cs| == |rs| == Times(|ts|, k + 2 * f) && m <= |ts|
    ensures |ss| == |ts|
    ensures Mean(FP, delta, FpPolys(ts, k + 2 * f, f, rs, cs, m), FpKeys(delta, ss, k + 2 * f, f, ks, cs, m),
                 AllSatisfied(ts, k, f, xs, cs, m))
  {
    hide QuickSilver.AuthTriple, HdBitsOk, Mean, Satisfies, TriplePolys, TripleKeys, Part, Times, CorrectedBits;
    var n := k + 2 * f;
    if m == 0 {
      MeanEmpty<Fp>(FP, delta, [], [], AllSatisfied(ts, k, f, xs, cs, 0));
    } else {
      var t := m - 1;
      FpMean(pred, delta, ts, ss, k, f, rs, ks, xs, cs, t);
      BitsPart(pred, delta, rs, ks, xs, cs, |ts|, n, t);
      assert QuickSilver.AuthTriple(FP, delta, ts[t], ss[t]);
      var r, l, x, c := Part(rs, Times(t, n), n), Part(ks, Times(t, n), n), Part(xs, Times(t, n), n),
                        Part(cs, Times(t, n), n);
      TripleMean(pred, delta, ts[t], ss[t], k, f, r, l, x, c);
      MeanAppend(FP, delta, FpPolys(ts, n, f, rs, cs, t), FpKeys(delta, ss, n, f, ks, cs, t),
                 AllSatisfied(ts, k, f, xs, cs, t), TriplePolys(ts[t], r, c, f), TripleKeys(delta, ss[t], l, c, f),
                 Satisfied(ts, k, f, xs, cs, t));
    }
  }

  ghost predicate AllTruncate(ts: seq<FpTripleP>, k: nat, f: nat) {
    forall i :: 0 <= i < |ts| ==> Truncates(ts[i].0.x, ts[i].1.x, ts[i].2.x, k, f)
  }

  /** With room for k + 2f bits, or without fractional bits: a batch with a triple that is not a truncated product
      passes, for any corrections, for at most twice as many challenges as there are triples. */
  lemma FewChallengesAcceptProducts(pred: Pred, delta: Fp, ts: seq<FpTripleP>, ss: seq<FpTripleV>, k: nat, f: nat,
                                    rs: seq<seq<Fp>>, ks: seq<HdKey<Fp>>, xs: seq<Fp>, cs: seq<bool>,
                                    mask: Fp -> seq<Fp>, chis: set<Fp>)
    requires (f == 0 || Pow2(k + 2 * f) <= P) && delta != 0 && |ss| == |ts| && !AllTruncate(ts, k, f)
    requires QuickSilver.AuthTriples(FP, delta, ts, ss) && HdBitsOk(pred, delta, rs, ks, xs)
    requires |cs| == |rs| == Times(|ts|, k + 2 * f) && Proper(FpPolys(ts, k + 2 * f, f, rs, cs, |ts|))
    requires Accepting(FP, delta, FpPolys(ts, k + 2 * f, f, rs, cs, |ts|),
                       FpKeys(delta, ss, k + 2 * f, f, ks, cs, |ts|), mask, chis)
    ensures |chis| <= 2 * |ts|
  {
    hide IsDomain, QuickSilver.AuthTriples, HdBitsOk, Mean, Accepting, FpPolys, FpKeys, Times, AllSatisfied;
    FpIsDomain();
    FpMean(pred, delta, ts, ss, k, f, rs, ks, xs, cs, |ts|);
    NotSatisfied(ts, k, f, xs, cs);
    FewAccepting(FP, delta, FpPolys(ts, k + 2 * f, f, rs, cs, |ts|), FpKeys(delta, ss, k + 2 * f, f, ks, cs, |ts|),
                 mask, chis);
  }

  lemma NotSatisfied(ts: seq<FpTripleP>, k: nat, f: nat, xs: seq<Fp>, cs: seq<bool>)
    requires (f == 0 || Pow2(k + 2 * f) <= P) && !AllTruncate(ts, k, f)
    ensures !AllSatisfied(ts, k, f, xs, cs, |ts|)
  {
    hide Truncates, Satisfies, Pow2, Part, Times, CorrectedBits;
    var i :| 0 <= i < |ts| && !Truncates(ts[i].0.x, ts[i].1.x, ts[i].2.x, k, f);
    TruncationExact(k, f);
    assert !(exists bs :: Satisfies(ts[i].0.x, ts[i].1.x, ts[i].2.x, k, f, bs));
    assert !Satisfied(ts, k, f, xs, cs, i);
  }
}
