/** Generating daBits: random bits corrected into the prime field, checked by masked subset sums in one of two
    versions. */
module CheddaBits {
  import opened Rings
  import opened Sums
  import opened PrimeField
  import opened Bits
  import opened Homcom
  import opened QuickSilver
  import opened Fdabit
  import opened FdabitRun
  import opened EdabitConversionRun

  const SEC_PARAM_KAPPA: nat := 42
  const TWO_TO_S_V1: nat := 0x1_0000_0000_0000   // 2^48

  /** `check_params_v1`: the largest opening fits below the modulus. */
  predicate CheckParamsV1(n: nat) {
    n > 0 && n * (TWO_TO_S_V1 + 1) - 1 < P
  }

  predicate CheckParamsV2(n: nat) {
    n < P
  }

  // ---- version 1: masks are integers whose lowest bit is the binary mask ----

  /** The sampled mask with its lowest bit set to that of the binary mask. */
  function AdjustMask(m: nat, bit: nat): (a: nat)
    requires bit <= 1
    ensures a % 2 == bit && a / 2 == m / 2
  {
    m - m % 2 + bit
  }

  /** What both parties assert of the two openings of one row. */
  predicate RowAccepts(n: nat, bit: nat, value: Fp) {
    value % 2 == bit && n <= value < n * TWO_TO_S_V1
  }

  lemma AdjustedBelow(n: nat, m: nat, bit: nat)
    requires bit <= 1 && m < n * TWO_TO_S_V1
    ensures AdjustMask(m, bit) < n * TWO_TO_S_V1
  {
    assert n * TWO_TO_S_V1 == 2 * (n * 0x8000_0000_0000);
  }

  /** With honest masks nothing is reduced modulo p, so the openings have the parity of the binary ones and a row
      passes exactly when its sum stays in the range. */
  lemma NoReduction(n: nat, mask: nat, sum: nat)
    requires CheckParamsV1(n) && mask < n * TWO_TO_S_V1 && sum <= n
    ensures mask + sum < P && ToFp(mask + sum) == mask + sum
    ensures RowAccepts(n, (mask % 2 + sum) % 2, ToFp(mask + sum)) <==> n <= mask + sum < n * TWO_TO_S_V1
  {
    assert n * (TWO_TO_S_V1 + 1) == n * TWO_TO_S_V1 + n;
    ToFpSmall(mask + sum);
  }

  /** An honest row passes for every challenge exactly when the mask is at least n and leaves room for all bits. */
  lemma EveryChallenge(n: nat, mask: nat, vs: seq<nat>)
    requires CheckParamsV1(n) && mask < n * TWO_TO_S_V1 && |vs| == n && forall i :: 0 <= i < n ==> vs[i] <= 1
    ensures (forall e: seq<bool> :: |e| == n ==>
               RowAccepts(n, (mask % 2 + Selected(e, vs)) % 2, ToFp(mask + Selected(e, vs))))
       <==> n <= mask && mask + Selected(seq(n, i => true), vs) < n * TWO_TO_S_V1
  {
    hide RowAccepts, Selected, ToFp;
    var all, none := seq(n, i => true), seq(n, i => false);
    SelectNone(vs);
    forall e: seq<bool> | |e| == n
      ensures Selected(none, vs) <= Selected(e, vs) <= Selected(all, vs)
      ensures RowAccepts(n, (mask % 2 + Selected(e, vs)) % 2, ToFp(mask + Selected(e, vs)))
         <==> n <= mask + Selected(e, vs) < n * TWO_TO_S_V1
    {
      OneChallenge(n, mask, vs, e);
    }
    if forall e: seq<bool> :: |e| == n ==>
        RowAccepts(n, (mask % 2 + Selected(e, vs)) % 2, ToFp(mask + Selected(e, vs))) {
      assert RowAccepts(n, (mask % 2 + Selected(all, vs)) % 2, ToFp(mask + Selected(all, vs)));
      assert RowAccepts(n, (mask % 2 + Selected(none, vs)) % 2, ToFp(mask + Selected(none, vs)));
    }
  }

  lemma OneChallenge(n: nat, mask: nat, vs: seq<nat>, e: seq<bool>)
    requires CheckParamsV1(n) && mask < n * TWO_TO_S_V1 && |vs| == n == |e| && forall i :: 0 <= i < n ==> vs[i] <= 1
    ensures 0 <= Selected(e, vs) <= Selected(seq(n, i => true), vs)
    ensures RowAccepts(n, (mask % 2 + Selected(e, vs)) % 2, ToFp(mask + Selected(e, vs)))
       <==> n <= mask + Selected(e, vs) < n * TWO_TO_S_V1
  {
    SelectedBound(e, vs);
    SelectAll(e, vs);
    NoReduction(n, mask, Selected(e, vs));
  }

  lemma {:induction false} SelectNone(vs: seq<nat>)
    ensures Selected(seq(|vs|, i => false), vs) == 0
  {
    var n := |vs|;
    if n > 0 {
      assert seq(n, i => false)[..n - 1] == seq(n - 1, i => false);
      SelectNone(vs[..n - 1]);
    }
  }

  lemma {:induction false} SelectAll(e: seq<bool>, vs: seq<nat>)
    requires |e| == |vs|
    ensures Selected(e, vs) <= Selected(seq(|vs|, i => true), vs)
  {
    var n := |vs|;
    if n > 0 {
      assert seq(n, i => true)[..n - 1] == seq(n - 1, i => true);
      SelectAll(e[..n - 1], vs[..n - 1]);
    }
  }

  /** Whatever element of the field a prover chose as its mask: the lower end of the range rules out a wrap-around,
      so a row passes exactly when the true integer sum is in the range and an even number of mismatches, counting
      that of the mask itself, is selected. */
  lemma RowExact(n: nat, mask: Fp, mask2: nat, e: seq<bool>, us: seq<nat>, vs: seq<nat>)
    requires CheckParamsV1(n) && mask2 <= 1 && |e| == |us| == |vs| == n
    requires forall i :: 0 <= i < n ==> us[i] <= 1 && vs[i] <= 1
    ensures RowAccepts(n, (mask2 + Selected(e, us)) % 2, ToFp(mask + Selected(e, vs)))
       <==> && n <= mask + Selected(e, vs) < n * TWO_TO_S_V1
            && (mask % 2 + mask2 + Mismatches(e, us, vs)) % 2 == 0
  {
    hide Selected, Mismatches;
    var sum := Selected(e, vs);
    assert sum <= n by {
      SelectedBound(e, vs);
    }
    ParityOfMismatches(e, us, vs);
    RowParity(mask, mask2, Selected(e, us), sum, Mismatches(e, us, vs));
    RowSum(n, mask, sum);
  }

  lemma RowSum(n: nat, mask: Fp, sum: nat)
    requires CheckParamsV1(n) && sum <= n
    ensures if n <= mask + sum < n * TWO_TO_S_V1 then ToFp(mask + sum)
         == mask + sum else !(n <= ToFp(mask + sum) < n * TWO_TO_S_V1)
  {
    assert n * (TWO_TO_S_V1 + 1) == n * TWO_TO_S_V1 + n;
    if mask + sum < P {
      ToFpSmall(mask + sum);
    } else {
      ModUnique(mask + sum, 1, mask + sum - P);
    }
  }

  lemma RowParity(mask: nat, mask2: nat, u: nat, sum: nat, m: nat)
    requires (u + sum) % 2 == m % 2
    ensures (mask + sum) % 2 == (mask2 + u) % 2 <==> (mask % 2 + mask2 + m) % 2 == 0
  {
  }

  // ---- version 2: the sum is halved in the field ----

  /** 1/2, for an odd modulus. */
  function HalfOf(x: Fp): Fp
    requires P % 2 == 1
  {
    FpMul((P + 1) / 2, x)
  }

  /** Halving in the field: an even sum gives its half, an odd one lands half the modulus higher. */
  lemma HalvingExact(s: nat)
    requires P % 2 == 1
    ensures HalfOf(ToFp(s)) == ToFp(if s % 2 == 0 then s / 2 else (s + P) / 2)
  {
    hide ToFp, FpMul;
    var h: int := (P + 1) / 2;
    MulHom(h, s);
    Canonical(h);
    if s % 2 == 0 {
      HalfEven(P, h, s / 2);
      Congruent(h * s, s / 2, s / 2);
    } else {
      var q := (s + P) / 2;
      HalfOdd(P, h, q);
      assert s == 2 * q - P;
      Congruent(h * s, q, q - h);
    }
  }

  lemma HalfEven(p: int, h: int, q: int)
    requires 2 * h == p + 1
    ensures h * (2 * q) == q + q * p
  {
    assert h * (2 * q) == (2 * h) * q;
    assert (p + 1) * q == q + q * p;
  }

  lemma HalfOdd(p: int, h: int, q: int)
    requires 2 * h == p + 1
    ensures h * (2 * q - p) == q + (q - h) * p
  {
    HalfEven(p, h, q);
    assert h * (2 * q - p) == h * (2 * q) - h * p;
    assert (q - h) * p == q * p - h * p;
  }

  /** With the parity of the sum opened honestly, what is range-checked is exactly ceil(S / 2), without a reduction,
      for every n that passes the parameter check. */
  lemma HalvedSum(n: nat, mask: nat, sum: nat)
    requires CheckParamsV2(n) && P % 2 == 1 && mask <= 1 && sum <= n
    ensures var s := mask + sum;
            && (s + 1) / 2 < P
            && HalfOf(FpAdd(ToFp(s % 2), ToFp(s))) == (s + 1) / 2
  {
    hide ToFp, FpMul, FpAdd, HalfOf;
    var s := mask + sum;
    AddHom(s % 2, s);
    HalvingExact(s % 2 + s);
    assert (s % 2 + s) / 2 == (s + 1) / 2;
    ToFpSmall((s + 1) / 2);
  }

  /** With the wrong parity opened, it is about half the modulus: out of any range that ends below p / 2. */
  lemma WrongParity(n: nat, mask: nat, sum: nat, bit: nat)
    requires CheckParamsV2(n) && P % 2 == 1 && mask <= 1 && sum <= n && bit <= 1 && bit != (mask + sum) % 2
    requires mask + sum + bit < P
    ensures HalfOf(FpAdd(ToFp(bit), ToFp(mask + sum))) == (mask + sum + bit + P) / 2
    ensures (mask + sum + bit + P) / 2 > P / 2
  {
    hide ToFp, FpMul, FpAdd, HalfOf;
    var s := mask + sum;
    AddHom(bit, s);
    HalvingExact(bit + s);
    ToFpSmall((s + bit + P) / 2);
  }

  // ---- the loops, as both parties run them ----

  function PickP<F>(r: Ring<F>, start: MacProver<F>, e: seq<bool>, ms: seq<MacProver<F>>): MacProver<F>
    requires |e| == |ms|
  {
    if e == [] then start
    else var n := |e| - 1; var acc := PickP(r, start, e[..n], ms[..n]); if e[n] then AddP(r, acc, ms[n]) else acc
  }

  function PickV<F>(r: Ring<F>, start: MacVerifier<F>, e: seq<bool>, ks: seq<MacVerifier<F>>): MacVerifier<F>
    requires |e| == |ks|
  {
    if e == [] then start
    else var n := |e| - 1; var acc := PickV(r, start, e[..n], ks[..n]); if e[n] then AddV(r, acc, ks[n]) else acc
  }

  lemma {:induction false} PickAuth<F(!new)>(r: Ring<F>, delta: F, p: MacProver<F>, v: MacVerifier<F>, e: seq<bool>,
                                             ms: seq<MacProver<F>>, ks: seq<MacVerifier<F>>)
    requires IsRing(r) && Auth(r, delta, p, v) && |e| == |ms| && AuthAll(r, delta, ms, ks)
    ensures Auth(r, delta, PickP(r, p, e, ms), PickV(r, v, e, ks))
  {
    hide Auth, AddP, AddV, IsRing;
    if e != [] {
      var n := |e| - 1;
      PickAuth(r, delta, p, v, e[..n], ms[..n], ks[..n]);
      AddAuth(r, delta, PickP(r, p, e[..n], ms[..n]), ms[n], PickV(r, v, e[..n], ks[..n]), ks[n]);
    }
  }

  lemma {:induction false} PickBinary<F(!new)>(r: Ring<F>, p: MacProver<F>, e: seq<bool>, ms: seq<MacProver<F>>,
                                               us: seq<nat>)
    requires IsBinary(r) && IsBit(r, p.x) && |e| == |ms| == |us|
    requires forall i :: 0 <= i < |ms| ==> IsBit(r, ms[i].x) && us[i] == BitNat(r, ms[i].x)
    ensures IsBit(r, PickP(r, p, e, ms).x)
    ensures BitNat(r, PickP(r, p, e, ms).x) == (BitNat(r, p.x) + Selected(e, us)) % 2
  {
    hide IsBinary, IsRing;
    if e != [] {
      var n := |e| - 1;
      PickBinary(r, p, e[..n], ms[..n], us[..n]);
      AddBits(r, PickP(r, p, e[..n], ms[..n]).x, ms[n].x);
    }
  }

  lemma {:induction false} PickField(p: MacProver<Fp>, x: nat, e: seq<bool>, ms: seq<MacProver<Fp>>, vs: seq<nat>)
    requires p.x == ToFp(x) && |e| == |ms| == |vs|
    requires forall i :: 0 <= i < |ms| ==> ms[i].x == ToFp(vs[i])
    ensures PickP(FP, p, e, ms).x == ToFp(x + Selected(e, vs))
  {
    hide ToFp;
    if e != [] {
      var n := |e| - 1;
      PickField(p, x, e[..n], ms[..n], vs[..n]);
      AddHom(x + Selected(e[..n], vs[..n]), vs[n]);
    }
  }

  method ProverPick<F>(r: Ring<F>, start: MacProver<F>, e: seq<bool>, ms: seq<MacProver<F>>) returns (acc: MacProver<F>)
    requires |e| == |ms|
    ensures acc == PickP(r, start, e, ms)
  {
    acc := start;
    for i := 0 to |ms|
      invariant acc == PickP(r, start, e[..i], ms[..i])
    {
      if e[i] {
        acc := AddP(r, acc, ms[i]);
      }
      assert e[..i + 1][..i] == e[..i] && ms[..i + 1][..i] == ms[..i];
    }
    assert e[..|ms|] == e && ms[..|ms|] == ms;
  }

  method VerifierPick<F>(r: Ring<F>, start: MacVerifier<F>, e: seq<bool>, ks: seq<MacVerifier<F>>)
    returns (acc: MacVerifier<F>)
    requires |e| == |ks|
    ensures acc == PickV(r, start, e, ks)
  {
    acc := start;
    for i := 0 to |ks|
      invariant acc == PickV(r, start, e[..i], ks[..i])
    {
      if e[i] {
        acc := AddV(r, acc, ks[i]);
      }
      assert e[..i + 1][..i] == e[..i] && ks[..i + 1][..i] == ks[..i];
    }
    assert e[..|ks|] == e && ks[..|ks|] == ks;
  }

  /** A random value moved to the given one: the prover sends how far it is off. */
  method RunShifted(p: FComProver<Fp>, v: FComVerifier<Fp>, x: Fp) returns (mp: MacProver<Fp>, mv: MacVerifier<Fp>)
    requires Linked(p, v) && p.r == FP
    modifies p, v
    ensures Linked(p, v) && Auth(FP, v.delta, mp, mv) && mp.x == x
    ensures [mp] == CommitAll([x], p.Voles(old(p.used), 1))
    ensures p.used == old(p.used) + 1 && v.used == old(v.used) + 1
  {
    hide Linked, Auth, IsRing;
    FpIsRing();
    var a, k := RunRandom(p, v);
    assert p.Voles(old(p.used), 1)[0] == a;
    var correction := FP.Sub(a.x, x);
    AddCstAuth(FP, v.delta, FpNeg(correction), a, k);
    ShiftBack(a.x, x);
    mp, mv := AddCstP(FP, FpNeg(correction), a), AddCstV(FP, v.delta, FpNeg(correction), k);
  }

  lemma ShiftBack(a: Fp, x: Fp)
    ensures FpAdd(FpNeg(FP.Sub(a, x)), a) == x
  {
    Canonical(a);
    Canonical(x);
    SubHom(a, x);
    NegHom(a - x);
    AddHom(x - a, a);
  }

  lemma NoneDrawn<F(!new)>(p2: FComProver<F>, v2: FComVerifier<F>, pp: FComProver<Fp>, vp: FComVerifier<Fp>)
    requires Linked(p2, v2) && Linked(pp, vp)
    ensures DrawnDabits(StockOf(p2, pp), 0) == [] && DrawnMasks(StockOf(p2, pp), []) == []
  {
  }

  /** One more random bit, and a number committed next to it. */
  lemma NextPair<F(!new)>(p2: FComProver<F>, v2: FComVerifier<F>, pp: FComProver<Fp>, vp: FComVerifier<Fp>, s: Stock<F>,
                          i: nat, xs: seq<Fp>, b: MacProver<F>, x: Fp, d: MacProver<Fp>)
    requires Linked(p2, v2) && Linked(pp, vp) && s.s2 == p2.supply && s.sp == pp.supply && |xs| == i
    requires [b] == p2.Voles(s.u2 + i, 1) && [d] == CommitAll([x], pp.Voles(s.up + i, 1))
    ensures |s.Binary(0, i)| == i && |s.Binary(0, i + 1)| == i + 1
    ensures s.Binary(0, i + 1) == s.Binary(0, i) + [b]
    ensures PairUp(s.Binary(0, i + 1), xs + [x], s.Prime(0, i + 1))
         == PairUp(s.Binary(0, i), xs, s.Prime(0, i)) + [DabitP(b, d)]
  {
    hide Linked, Delivered, CommitAll, PairUp;
    MoreVoles(p2, v2, s.u2, i, 1);
    MoreVoles(pp, vp, s.up, i, 1);
    var u := pp.Voles(s.up + i, 1);
    assert u == [u[0]] && CommitAll([x], u)[0] == d;
    PairUpSnoc(s.Binary(0, i), xs, s.Prime(0, i), b, x, u[0]);
  }

  lemma NextDabit<F(!new)>(p2: FComProver<F>, v2: FComVerifier<F>, pp: FComProver<Fp>, vp: FComVerifier<Fp>,
                           s: Stock<F>, i: nat, b: MacProver<F>, d: MacProver<Fp>)
    requires Linked(p2, v2) && Linked(pp, vp) && s.r == p2.r && s.s2 == p2.supply && s.sp == pp.supply
    requires [b] == p2.Voles(s.u2 + i, 1) && [d] == CommitAll([BitNat(s.r, b.x) as Fp], pp.Voles(s.up + i, 1))
    ensures DrawnDabits(s, i + 1) == DrawnDabits(s, i) + [DabitP(b, d)]
  {
    hide Linked, Delivered, CommitAll, PairUp, BitNat;
    MoreVoles(p2, v2, s.u2, i, 1);
    var xs := BitNumbers(s.r, Values(s.Binary(0, i)));
    NextPair(p2, v2, pp, vp, s, i, xs, b, BitNat(s.r, b.x) as Fp, d);
    assert BitNumbers(s.r, Values(s.Binary(0, i + 1))) == xs + [BitNat(s.r, b.x) as Fp];
  }

  /** The numbers next to the mask bits: the sampled ones with their lowest bits set. */
  ghost function MaskNumbers<F>(r: Ring<F>, bits: seq<MacProver<F>>, sampled: seq<nat>): (xs: seq<Fp>)
    ensures |xs| == |bits|
  {
    seq(|bits|, i requires 0 <= i < |bits| =>
      ToFp(AdjustMask(if i < |sampled| then sampled[i] else 0, BitNat(r, bits[i].x))))
  }

  ghost function DrawnMasks<F>(s: Stock<F>, sampled: seq<nat>): seq<DabitP<F>> {
    var bits := s.Binary(0, |sampled|);
    PairUp(bits, MaskNumbers(s.r, bits, sampled), s.Prime(0, |sampled|))
  }

  lemma NextMask<F(!new)>(p2: FComProver<F>, v2: FComVerifier<F>, pp: FComProver<Fp>, vp: FComVerifier<Fp>, s: Stock<F>,
                          sampled: seq<nat>, i: nat, b: MacProver<F>, d: MacProver<Fp>)
    requires Linked(p2, v2) && Linked(pp, vp) && s.r == p2.r && s.s2 == p2.supply && s.sp == pp.supply
    requires i < |sampled| && [b] == p2.Voles(s.u2 + i, 1)
    requires [d] == CommitAll([ToFp(AdjustMask(sampled[i], BitNat(s.r, b.x)))], pp.Voles(s.up + i, 1))
    ensures DrawnMasks(s, sampled[..i + 1]) == DrawnMasks(s, sampled[..i]) + [DabitP(b, d)]
  {
    hide Linked, Delivered, CommitAll, PairUp, BitNat, AdjustMask, ToFp;
    MoreVoles(p2, v2, s.u2, i, 1);
    var x := ToFp(AdjustMask(sampled[i], BitNat(s.r, b.x)));
    var xs := MaskNumbers(s.r, s.Binary(0, i), sampled[..i]);
    NextPair(p2, v2, pp, vp, s, i, xs, b, x, d);
    assert MaskNumbers(s.r, s.Binary(0, i + 1), sampled[..i + 1]) == xs + [x];
  }

  /** daBits that are consistent by construction, made of the next random values. */
  method RunDabits<F(!new, ==)>(p2: FComProver<F>, v2: FComVerifier<F>, pp: FComProver<Fp>, vp: FComVerifier<Fp>,
                                n: nat)
    returns (ds: seq<DabitP<F>>, ks: seq<DabitV<F>>)
    requires Linked(p2, v2) && Linked(pp, vp) && pp.r == FP && DrawsBits(p2)
    requires {p2 as object, v2} !! {pp as object, vp}
    modifies p2, v2, pp, vp
    ensures Linked(p2, v2) && Linked(pp, vp) && |ds| == n
    ensures AuthDabits(p2.r, v2.delta, vp.delta, ds, ks) && Consistent(p2.r, ds)
    ensures ds == DrawnDabits(old(StockOf(p2, pp)), n)
    ensures p2.used == old(p2.used) + n && v2.used == old(v2.used) + n && pp.used == old(pp.used) + n
    ensures vp.used == old(vp.used) + n
  {
    hide Linked, Auth, IsBit, BitNat, DrawsBits, DrawnDabits, Delivered, CommitAll;
    ds, ks := [], [];
    ghost var s := StockOf(p2, pp);
    NoneDrawn(p2, v2, pp, vp);
    for i := 0 to n
      invariant Linked(p2, v2) && Linked(pp, vp) && |ds| == i && ds == DrawnDabits(s, i)
      invariant AuthDabits(p2.r, v2.delta, vp.delta, ds, ks) && Consistent(p2.r, ds)
      invariant p2.used == old(p2.used) + i && v2.used == old(v2.used) + i && pp.used == old(pp.used) + i
      invariant vp.used == old(vp.used) + i
    {
      var b, bk := RunRandom(p2, v2);
      var x: Fp := BitNat(p2.r, b.x);
      var d, dk := RunShifted(pp, vp, x);
      DrawnBit(p2, b);
      NextDabit(p2, v2, pp, vp, s, i, b, d);
      ds, ks := ds + [DabitP(b, d)], ks + [DabitV(bk, dk)];
    }
  }

  /** The masks of version 1, from integers below n * 2^48. */
  method RunMasksV1<F(!new, ==)>(p2: FComProver<F>, v2: FComVerifier<F>, pp: FComProver<Fp>, vp: FComVerifier<Fp>,
                                 sampled: seq<nat>)
    returns (ds: seq<DabitP<F>>, ks: seq<DabitV<F>>)
    requires Linked(p2, v2) && Linked(pp, vp) && pp.r == FP && DrawsBits(p2)
    requires {p2 as object, v2} !! {pp as object, vp}
    modifies p2, v2, pp, vp
    ensures Linked(p2, v2) && Linked(pp, vp) && |ds| == |sampled|
    ensures AuthDabits(p2.r, v2.delta, vp.delta, ds, ks) && ds == DrawnMasks(old(StockOf(p2, pp)), sampled)
    ensures forall j :: 0 <= j < |ds| ==>
      IsBit(p2.r, ds[j].bit.x) && ds[j].value.x == ToFp(AdjustMask(sampled[j], BitNat(p2.r, ds[j].bit.x)))
    ensures var n := |sampled|;
            && p2.used == old(p2.used) + n && v2.used == old(v2.used) + n && pp.used == old(pp.used) + n
            && vp.used == old(vp.used) + n
  {
    hide Linked, Auth, IsBit, BitNat, AdjustMask, ToFp, DrawsBits, DrawnMasks, Delivered, CommitAll;
    ds, ks := [], [];
    ghost var s := StockOf(p2, pp);
    NoneDrawn(p2, v2, pp, vp);
    for i := 0 to |sampled|
      invariant ds == DrawnMasks(s, sampled[..i])
      invariant Linked(p2, v2) && Linked(pp, vp) && |ds| == i && AuthDabits(p2.r, v2.delta, vp.delta, ds, ks)
      invariant forall j :: 0 <= j < i ==>
        IsBit(p2.r, ds[j].bit.x) && ds[j].value.x == ToFp(AdjustMask(sampled[j], BitNat(p2.r, ds[j].bit.x)))
      invariant p2.used == old(p2.used) + i && v2.used == old(v2.used) + i && pp.used == old(pp.used) + i
      invariant vp.used == old(vp.used) + i
    {
      var b, bk := RunRandom(p2, v2);
      var d, dk := RunShifted(pp, vp, ToFp(AdjustMask(sampled[i], BitNat(p2.r, b.x))));
      DrawnBit(p2, b);
      NextMask(p2, v2, pp, vp, s, sampled, i, b, d);
      ds, ks := ds + [DabitP(b, d)], ks + [DabitV(bk, dk)];
    }
    assert sampled[..|sampled|] == sampled;
  }

  // ---- the consistency check of version 1 ----

  method PickRows<F>(r: Ring<F>, ms: seq<DabitP<F>>, es: seq<seq<bool>>, ds: seq<DabitP<F>>)
    returns (bits: seq<MacProver<F>>, values: seq<MacProver<Fp>>)
    requires |ms| == |es| && forall j :: 0 <= j < |es| ==> |es[j]| == |ds|
    ensures |bits| == |values| == |es|
    ensures forall j :: 0 <= j < |es| ==>
      && bits[j] == PickP(r, ms[j].bit, es[j], DabitBitsP(ds))
      && values[j] == PickP(FP, ms[j].value, es[j], DabitValuesP(ds))
  {
    hide PickP;
    bits, values := [], [];
    for j := 0 to |es|
      invariant |bits| == |values| == j
      invariant forall i :: 0 <= i < j ==>
        && bits[i] == PickP(r, ms[i].bit, es[i], DabitBitsP(ds))
        && values[i] == PickP(FP, ms[i].value, es[i], DabitValuesP(ds))
    {
      var b := ProverPick(r, ms[j].bit, es[j], DabitBitsP(ds));
      var x := ProverPick(FP, ms[j].value, es[j], DabitValuesP(ds));
      bits, values := bits + [b], values + [x];
    }
  }

  method PickKeyRows<F>(r: Ring<F>, ms: seq<DabitV<F>>, es: seq<seq<bool>>, ks: seq<DabitV<F>>)
    returns (bits: seq<MacVerifier<F>>, values: seq<MacVerifier<Fp>>)
    requires |ms| == |es| && forall j :: 0 <= j < |es| ==> |es[j]| == |ks|
    ensures |bits| == |values| == |es|
    ensures forall j :: 0 <= j < |es| ==>
      && bits[j] == PickV(r, ms[j].bit, es[j], DabitBitsV(ks))
      && values[j] == PickV(FP, ms[j].value, es[j], DabitValuesV(ks))
  {
    hide PickV;
    bits, values := [], [];
    for j := 0 to |es|
      invariant |bits| == |values| == j
      invariant forall i :: 0 <= i < j ==>
        && bits[i] == PickV(r, ms[i].bit, es[i], DabitBitsV(ks))
        && values[i] == PickV(FP, ms[i].value, es[i], DabitValuesV(ks))
    {
      var b := VerifierPick(r, ms[j].bit, es[j], DabitBitsV(ks));
      var x := VerifierPick(FP, ms[j].value, es[j], DabitValuesV(ks));
      bits, values := bits + [b], values + [x];
    }
  }

  /** What one row opens to, for bit-valued daBits and whatever mask. */
  lemma RowOpening<F(!new)>(r: Ring<F>, m: DabitP<F>, e: seq<bool>, ds: seq<DabitP<F>>)
    requires IsBinary(r) && IsBit(r, m.bit.x) && |e| == |ds| && BitValued(r, ds)
    ensures BitNat(r, PickP(r, m.bit, e, DabitBitsP(ds)).x) == (BitNat(r, m.bit.x) + Selected(e, BitNats(r, ds))) % 2
    ensures PickP(FP, m.value, e, DabitValuesP(ds)).x == ToFp(m.value.x + Selected(e, ValueNats(ds)))
  {
    hide IsBinary, PickP, Selected, BitNat;
    PickBinary(r, m.bit, e, DabitBitsP(ds), BitNats(r, ds));
    Canonical(m.value.x);
    forall i | 0 <= i < |ds| ensures DabitValuesP(ds)[i].x == ToFp(ValueNats(ds)[i]) {
      Canonical(ds[i].value.x);
    }
    PickField(m.value, m.value.x, e, DabitValuesP(ds), ValueNats(ds));
  }

  /** The row passes: the true sum is in the range, and the mismatches, with the mask's own, are even in number. */
  ghost predicate RowPasses<F>(r: Ring<F>, m: DabitP<F>, e: seq<bool>, ds: seq<DabitP<F>>)
    requires |e| == |ds|
  {
    && |ds| <= m.value.x + Selected(e, ValueNats(ds)) < |ds| * TWO_TO_S_V1
    && (m.value.x % 2 + BitNat(r, m.bit.x) + Mismatches(e, BitNats(r, ds), ValueNats(ds))) % 2 == 0
  }

  lemma RowDecides<F(!new)>(r: Ring<F>, m: DabitP<F>, e: seq<bool>, ds: seq<DabitP<F>>)
    requires IsBinary(r) && IsBit(r, m.bit.x) && |e| == |ds| && BitValued(r, ds) && CheckParamsV1(|ds|)
    ensures RowAccepts(|ds|, BitNat(r, PickP(r, m.bit, e, DabitBitsP(ds)).x), PickP(FP, m.value, e, DabitValuesP(ds)).x)
       <==> RowPasses(r, m, e, ds)
  {
    hide IsBinary, PickP, Selected, Mismatches, RowAccepts, CheckParamsV1, BitNat;
    RowOpening(r, m, e, ds);
    RowExact(|ds|, m.value.x, BitNat(r, m.bit.x), e, BitNats(r, ds), ValueNats(ds));
  }

  lemma PickedAuth<F(!new)>(r: Ring<F>, d2: F, dp: Fp, ms: seq<DabitP<F>>, mks: seq<DabitV<F>>, es: seq<seq<bool>>,
                            ds: seq<DabitP<F>>, ks: seq<DabitV<F>>, j: nat)
    requires IsRing(r) && AuthDabits(r, d2, dp, ds, ks) && AuthDabits(r, d2, dp, ms, mks) && j < |ms| == |es|
    requires |es[j]| == |ds|
    ensures Auth(r, d2, PickP(r, ms[j].bit, es[j], DabitBitsP(ds)), PickV(r, mks[j].bit, es[j], DabitBitsV(ks)))
    ensures Auth(FP, dp, PickP(FP, ms[j].value, es[j], DabitValuesP(ds)),
                 PickV(FP, mks[j].value, es[j], DabitValuesV(ks)))
  {
    hide Auth, PickP, PickV;
    FpIsRing();
    hide IsRing;
    PickAuth(r, d2, ms[j].bit, mks[j].bit, es[j], DabitBitsP(ds), DabitBitsV(ks));
    PickAuth(FP, dp, ms[j].value, mks[j].value, es[j], DabitValuesP(ds), DabitValuesV(ks));
  }

  /** What the rows open: each mask plus the selected daBits, in both fields. */
  ghost predicate PicksOpened<F>(r: Ring<F>, ms: seq<DabitP<F>>, es: seq<seq<bool>>, ds: seq<DabitP<F>>, xs: seq<F>,
                                 ys: seq<Fp>)
  {
    && |xs| == |ys| == |ms| == |es|
    && forall j :: 0 <= j < |es| ==>
       && |es[j]| == |ds| && xs[j] == PickP(r, ms[j].bit, es[j], DabitBitsP(ds)).x
       && ys[j] == PickP(FP, ms[j].value, es[j], DabitValuesP(ds)).x
  }

  /** Both parties compute, open and test every row. For bit-valued daBits, consistent or not, and any masks, the
      check accepts exactly when every row passes. */
  method RunRowsV1<F(!new, ==)>(p2: FComProver<F>, v2: FComVerifier<F>, pp: FComProver<Fp>, vp: FComVerifier<Fp>,
                                hash2: seq<F> -> seq<F>, hashP: seq<Fp> -> seq<Fp>, ds: seq<DabitP<F>>,
                                ks: seq<DabitV<F>>, ms: seq<DabitP<F>>, mks: seq<DabitV<F>>,
                                es: seq<seq<bool>>) returns (ok: bool, xs: seq<F>, ys: seq<Fp>)
    requires Linked(p2, v2) && Linked(pp, vp) && pp.r == FP && IsBinary(p2.r) && Hashes(hash2) && Hashes(hashP)
    requires AuthDabits(p2.r, v2.delta, vp.delta, ds, ks) && AuthDabits(p2.r, v2.delta, vp.delta, ms, mks)
    requires |ms| == |es| && forall j :: 0 <= j < |es| ==> |es[j]| == |ds| && IsBit(p2.r, ms[j].bit.x)
    requires BitValued(p2.r, ds) && CheckParamsV1(|ds|)
    ensures ok <==> forall j :: 0 <= j < |es| ==> RowPasses(p2.r, ms[j], es[j], ds)
    ensures PicksOpened(p2.r, ms, es, ds, xs, ys)
  {
    hide Linked, Auth, PickP, PickV, RowAccepts, RowPasses, CheckParamsV1, IsBit, BitNat, AuthDabits;
    var r, n := p2.r, |ds|;
    assert |ds| == |ks| && |ms| == |mks|
        && IsRing(r) by { SameSizes(r, v2.delta, vp.delta, ds, ks); SameSizes(r, v2.delta, vp.delta, ms, mks); }
    hide IsRing;
    var bits, values := PickRows(r, ms, es, ds);
    var bitKeys, valueKeys := PickKeyRows(r, mks, es, ks);
    forall j | 0 <= j < |es|
      ensures Auth(r, v2.delta, bits[j], bitKeys[j]) && Auth(FP, vp.delta, values[j], valueKeys[j])
      ensures RowAccepts(n, BitNat(r, bits[j].x), values[j].x) <==> RowPasses(r, ms[j], es[j], ds)
    {
      PickedAuth(r, v2.delta, vp.delta, ms, mks, es, ds, ks, j);
      RowDecides(r, ms[j], es[j], ds);
    }
    var ok2, okP;
    xs, ok2 := RunOpenValues(p2, v2, hash2, bits, bitKeys);
    ys, okP := RunOpenValues(pp, vp, hashP, values, valueKeys);
    ok := ok2 && okP;
    for j := 0 to |es|
      invariant ok <==> forall i :: 0 <= i < j ==> RowPasses(r, ms[i], es[i], ds)
    {
      assert xs[j] == bits[j].x && ys[j] == values[j].x;
      ok := ok && RowAccepts(n, BitNat(r, xs[j]), ys[j]);
    }
  }

  lemma SameSizes<F>(r: Ring<F>, d2: F, dp: Fp, ds: seq<DabitP<F>>, ks: seq<DabitV<F>>)
    requires AuthDabits(r, d2, dp, ds, ks)
    ensures |ds| == |ks|
  {
  }

  // ---- the binary check ----

  function BinaryTripleP(d: MacProver<Fp>): TripleP<Fp> {
    (d, NegP(FP, AddCstP(FP, FpNeg(1), d)), MacProver(0, 0))
  }

  function BinaryTripleV(delta: Fp, k: MacVerifier<Fp>): TripleV<Fp> {
    (k, NegV(FP, AddCstV(FP, delta, FpNeg(1), k)), MacVerifier(0))
  }

  function BinaryTriplesP<F>(ds: seq<DabitP<F>>): (ts: seq<TripleP<Fp>>)
    ensures |ts| == |ds|
  {
    seq(|ds|, i requires 0 <= i < |ds| => BinaryTripleP(ds[i].value))
  }

  function BinaryTriplesV<F>(delta: Fp, ks: seq<DabitV<F>>): (ts: seq<TripleV<Fp>>)
    ensures |ts| == |ks|
  {
    seq(|ks|, i requires 0 <= i < |ks| => BinaryTripleV(delta, ks[i].value))
  }

  /** d * (1 - d) = 0 holds exactly for 0 and 1. */
  lemma BinaryTriple(delta: Fp, d: MacProver<Fp>, k: MacVerifier<Fp>)
    requires Auth(FP, delta, d, k)
    ensures AuthTriple(FP, delta, BinaryTripleP(d), BinaryTripleV(delta, k))
    ensures BinaryTripleP(d).2.x == FP.mul(BinaryTripleP(d).0.x, BinaryTripleP(d).1.x) <==> d.x <= 1
  {
    hide IsRing;
    FpIsDomain();
    AddCstAuth(FP, delta, FpNeg(1), d, k);
    NegAuth(FP, delta, AddCstP(FP, FpNeg(1), d), AddCstV(FP, delta, FpNeg(1), k));
    MulZero(FP, delta);
    AddZero(FP, 0);
    OneMinusValue(d.x);
    if FpMul(d.x, ToFp(1 - d.x)) == 0 {
      NoZeroDivisors(d.x, ToFp(1 - d.x));
      if d.x > 1 {
        Congruent(1 - d.x + P, 1 - d.x, 1);
        ToFpSmall(1 - d.x + P);
      }
    }
    if d.x <= 1 {
      ToFpSmall(1 - d.x);
      ToFpSmall(0);
      MulHom(d.x, 1 - d.x);
      Canonical(d.x);
      assert d.x * (1 - d.x) == 0;
    }
  }

  lemma OneMinusValue(x: Fp)
    ensures FpNeg(FpAdd(FpNeg(1), x)) == ToFp(1 - x)
  {
    ToFpSmall(1);
    Canonical(x);
    NegHom(1);
    AddHom(-1, x);
    NegHom(x - 1);
  }

  lemma BinaryTriples<F(!new)>(r: Ring<F>, d2: F, delta: Fp, ds: seq<DabitP<F>>, ks: seq<DabitV<F>>)
    requires AuthDabits(r, d2, delta, ds, ks)
    ensures AuthTriples(FP, delta, BinaryTriplesP(ds), BinaryTriplesV(delta, ks))
    ensures AllCorrect(FP, BinaryTriplesP(ds)) <==> forall i :: 0 <= i < |ds| ==> ds[i].value.x <= 1
  {
    hide Auth, AuthTriple;
    forall i | 0 <= i < |ds|
      ensures AuthTriple(FP, delta, BinaryTriplesP(ds)[i], BinaryTriplesV(delta, ks)[i])
      ensures BinaryTriplesP(ds)[i].2.x == FP.mul(BinaryTriplesP(ds)[i].0.x, BinaryTriplesP(ds)[i].1.x)
         <==> ds[i].value.x <= 1
    {
      BinaryTriple(delta, ds[i].value, ks[i].value);
    }
  }

  // ---- the whole generation, version 1 ----

  /** The check that all values are 0 or 1. */
  method RunBinaryCheck<F(!new)>(ghost r: Ring<F>, ghost d2: F, pp: FComProver<Fp>, vp: FComVerifier<Fp>, chi: Fp,
                                 ds: seq<DabitP<F>>, ks: seq<DabitV<F>>)
    returns (ok: bool, sent: ProductProof<Fp>)
    requires Linked(pp, vp) && pp.r == FP && AuthDabits(r, d2, vp.delta, ds, ks) && Consistent(r, ds)
    modifies pp, vp
    ensures Linked(pp, vp) && ok
    ensures sent == HonestProof(FP, pp.basis, chi, BinaryTriplesP(ds), pp.Voles(old(pp.used), |pp.basis|))
    ensures pp.used == old(pp.used) + |pp.basis| && vp.used == old(vp.used) + |pp.basis|
  {
    hide Linked, AuthDabits, PowerSum, Defects, AllCorrect, HonestProof, AuthTriples, Consistent, BitValued;
    SameSizes(r, d2, vp.delta, ds, ks);
    BinaryTriples(r, d2, vp.delta, ds, ks);
    ConsistentIsBits(r, ds);
    ok, sent := RunCheckMultiply(pp, vp, chi, BinaryTriplesP(ds), BinaryTriplesV(vp.delta, ks));
  }

  /** The mask of row j leaves its sum in the range. */
  ghost predicate MaskFits(n: nat, mask: nat, sum: nat) {
    n <= mask + sum < n * TWO_TO_S_V1
  }

  ghost predicate Challenges(n: nat, es: seq<seq<bool>>) {
    |es| == SEC_PARAM_KAPPA && forall j :: 0 <= j < |es| ==> |es[j]| == n
  }

  function VolesV1(n: nat, degree: nat): (nat, nat) {
    (n + SEC_PARAM_KAPPA, n + SEC_PARAM_KAPPA + degree)
  }

  /** What the prover sends: the opened rows, and the message about d * (1 - d) = 0. */
  datatype DabitTrace<F> = DabitTrace(xs: seq<F>, ys: seq<Fp>, sent: ProductProof<Fp>)

  ghost predicate DabitsTraced<F>(s: Stock<F>, chi: Fp, n: nat, sampled: seq<nat>, es: seq<seq<bool>>,
                                  t: DabitTrace<F>) {
    && PicksOpened(s.r, DrawnMasks(s.After(n, n), sampled), es, DrawnDabits(s, n), t.xs, t.ys)
    && t.sent == HonestProof(FP, s.basisP, chi, BinaryTriplesP(DrawnDabits(s, n)),
                             s.Prime(n + |sampled|, |s.basisP|))
  }

  /** `gen_dabits`, version 1: refused for parameters that do not fit; otherwise the daBits are consistent, an honest
      run fails exactly when a sampled mask lets some sum leave the range, and the VOLEs used are those estimated. */
  method RunGenDabitsV1<F(!new, ==)>(p2: FComProver<F>, v2: FComVerifier<F>, pp: FComProver<Fp>, vp: FComVerifier<Fp>,
                                     hash2: seq<F> -> seq<F>, hashP: seq<Fp> -> seq<Fp>, chi: Fp,
                                     n: nat, sampled: seq<nat>, es: seq<seq<bool>>)
    returns (ok: bool, ds: seq<DabitP<F>>, ks: seq<DabitV<F>>, ghost ms: seq<DabitP<F>>, trace: DabitTrace<F>)
    requires Linked(p2, v2) && Linked(pp, vp) && pp.r == FP && IsBinary(p2.r) && DrawsBits(p2) && Hashes(hash2)
    requires Hashes(hashP)
    requires Challenges(n, es) && |sampled| == |es| && forall j :: 0 <= j < |es| ==> sampled[j] < n * TWO_TO_S_V1
    requires {p2 as object, v2} !! {pp as object, vp}
    modifies p2, v2, pp, vp
    ensures Linked(p2, v2) && Linked(pp, vp)
    ensures !CheckParamsV1(n) ==> !ok
    ensures CheckParamsV1(n) ==>
              && |ds| == n && |ms| == |es| && AuthDabits(p2.r, v2.delta, vp.delta, ds, ks) && Consistent(p2.r, ds)
              && ds == DrawnDabits(old(StockOf(p2, pp)), n)
              && ms == DrawnMasks(old(StockOf(p2, pp)).After(n, n), sampled)
              && DabitsTraced(old(StockOf(p2, pp)), chi, n, sampled, es, trace)
              && (ok <==> forall j :: 0 <= j < |es| ==>
                    MaskFits(n, AdjustMask(sampled[j], BitNat(p2.r, ms[j].bit.x)), Selected(es[j], BitNats(p2.r, ds))))
              && var (n2, np) := VolesV1(n, |pp.basis|);
                 && p2.used == old(p2.used) + n2 && v2.used == old(v2.used) + n2
                 && pp.used == old(pp.used) + np && vp.used == old(vp.used) + np
  {
    hide Linked, Auth, RowPasses, IsBit, BitNat, AuthDabits, CheckParamsV1, AllCorrect, AdjustMask, PowerSum, Defects,
         MaskFits, Selected, IsRing, DrawnDabits, DrawnMasks, PicksOpened, HonestProof, Delivered, DrawsBits, IsBinary,
         Hashes;
    ghost var s := StockOf(p2, pp);
    ms := [];
    if !CheckParamsV1(n) {
      return false, [], [], [], DabitTrace([], [], ProductProof(0, 0));
    }
    var r := p2.r;
    ds, ks := RunDabits(p2, v2, pp, vp, n);
    var masks, mks := RunMasksV1(p2, v2, pp, vp, sampled);
    ms := masks;
    ConsistentIsBits(r, ds);
    var rows, xs, ys := RunRowsV1(p2, v2, pp, vp, hash2, hashP, ds, ks, masks, mks, es);
    forall j | 0 <= j < |es|
      ensures RowPasses(r, ms[j], es[j], ds)
         <==> MaskFits(n, AdjustMask(sampled[j], BitNat(r, ms[j].bit.x)), Selected(es[j], BitNats(r, ds)))
    {
      HonestRow(r, ms[j], sampled[j], es[j], ds);
    }
    var binary, sent := RunBinaryCheck(r, v2.delta, pp, vp, chi, ds, ks);
    ok, trace := rows && binary, DabitTrace(xs, ys, sent);
  }

  lemma ConsistentIsBits<F>(r: Ring<F>, ds: seq<DabitP<F>>)
    requires Consistent(r, ds)
    ensures BitValued(r, ds) && ValueNats(ds) == BitNats(r, ds) && forall i :: 0 <= i < |ds| ==> ds[i].value.x <= 1
  {
  }

  lemma HonestRow<F(!new)>(r: Ring<F>, m: DabitP<F>, sampled: nat, e: seq<bool>, ds: seq<DabitP<F>>)
    requires Consistent(r, ds) && |e| == |ds| && CheckParamsV1(|ds|) && sampled < |ds| * TWO_TO_S_V1
    requires m.value.x == ToFp(AdjustMask(sampled, BitNat(r, m.bit.x)))
    ensures RowPasses(r, m, e, ds)
       <==> MaskFits(|ds|, AdjustMask(sampled, BitNat(r, m.bit.x)), Selected(e, BitNats(r, ds)))
  {
    hide Selected, Mismatches, BitNat, BitNats, ValueNats, AdjustMask, ToFp, CheckParamsV1, Consistent, BitValued;
    var n, mask := |ds|, AdjustMask(sampled, BitNat(r, m.bit.x));
    ConsistentIsBits(r, ds);
    NoMismatch(e, BitNats(r, ds));
    AdjustedBelow(n, sampled, BitNat(r, m.bit.x));
    NoReduction(n, mask, 0);
    assert m.value.x == mask;
    EvenWithMask(mask, BitNat(r, m.bit.x));
  }

  lemma EvenWithMask(mask: nat, bit: nat)
    requires mask % 2 == bit
    ensures (mask % 2 + bit + 0) % 2 == 0
  {
  }

  /** Samples away from the two ends fit whatever the binary masks, the bits and the challenges are. */
  ghost predicate SafeSamples(n: nat, sampled: seq<nat>) {
    CheckParamsV1(n) && forall j :: 0 <= j < |sampled| ==> n < sampled[j] && sampled[j] + n + 1 < n * TWO_TO_S_V1
  }

  lemma SafeFits<F(!new)>(r: Ring<F>, n: nat, sampled: nat, bit: nat, e: seq<bool>, ds: seq<DabitP<F>>)
    requires n < sampled && sampled + n + 1 < n * TWO_TO_S_V1 && bit <= 1 && |e| == |ds| == n
    ensures MaskFits(n, AdjustMask(sampled, bit), Selected(e, BitNats(r, ds)))
  {
    SelectedBound(e, BitNats(r, ds));
  }
}
