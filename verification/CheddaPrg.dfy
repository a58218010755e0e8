/** The local generator behind the conversions: one predicate, evaluated on the same seed bits in two fields. */
module CheddaPrg {
  import opened Rings
  import opened PrimeField
  import opened Bits
  import opened Polynomials
  import opened Homcom
  import opened HdQuicksilver
  import opened HdMacs
  import opened HdValues

  // ---- picking seed bits ----

  ghost predicate SigmaOk(sigma: seq<nat>, loc: nat, n: nat) {
    |sigma| == loc && forall i :: 0 <= i < loc ==> sigma[i] < n
  }

  ghost function PickedP<F>(r: Ring<F>, seed: seq<MacProver<F>>, sigma: seq<nat>): (xs: seq<seq<F>>)
    requires SigmaOk(sigma, |sigma|, |seed|)
    ensures |xs| == |sigma| && forall i :: 0 <= i < |xs| ==> |xs[i]| == 2
  {
    seq(|sigma|, i requires 0 <= i < |sigma| => FromMac(r, seed[sigma[i]]))
  }

  ghost function PickedV<F>(r: Ring<F>, seed: seq<MacVerifier<F>>, sigma: seq<nat>): (ks: seq<HdKey<F>>)
    requires SigmaOk(sigma, |sigma|, |seed|)
    ensures |ks| == |sigma|
  {
    seq(|sigma|, i requires 0 <= i < |sigma| => KeyFromMac(r, seed[sigma[i]]))
  }

  ghost function PickedValues<F>(seed: seq<MacProver<F>>, sigma: seq<nat>): (xs: seq<F>)
    requires SigmaOk(sigma, |sigma|, |seed|)
    ensures |xs| == |sigma|
  {
    seq(|sigma|, i requires 0 <= i < |sigma| => seed[sigma[i]].x)
  }

  ghost predicate HdAll<F>(r: Ring<F>, delta: F, cs: seq<seq<F>>, ks: seq<HdKey<F>>, xs: seq<F>) {
    |cs| == |ks| == |xs| && forall i :: 0 <= i < |cs| ==> Hd(r, delta, cs[i], ks[i], xs[i], 1)
  }

  lemma PickedHd<F(!new)>(r: Ring<F>, delta: F, ps: seq<MacProver<F>>, vs: seq<MacVerifier<F>>, sigma: seq<nat>)
    requires IsRing(r) && AuthAll(r, delta, ps, vs) && SigmaOk(sigma, |sigma|, |ps|)
    ensures HdAll(r, delta, PickedP(r, ps, sigma), PickedV(r, vs, sigma), PickedValues(ps, sigma))
  {
    hide IsRing, Eval;
    forall i | 0 <= i < |sigma|
      ensures Hd(r, delta, PickedP(r, ps, sigma)[i], PickedV(r, vs, sigma)[i], PickedValues(ps, sigma)[i], 1)
    {
      FromMacAuth(r, delta, ps[sigma[i]], vs[sigma[i]]);
    }
  }

  method TimesProver<F(!new, ==)>(a: HDMacProver<F>, b: HDMacProver<F>) returns (c: HDMacProver<F>)
    requires a.Valid() && b.Valid() && a.r == b.r
    ensures fresh(c) && c.Valid() && c.r == a.r && c.Full() == MulSeq(a.r, a.Full(), b.Full())
  {
    c := new HDMacProver.Clone(a);
    c.MulAssign(b);
  }

  method TimesVerifier<F(!new, ==)>(a: HDMacVerifier<F>, b: HDMacVerifier<F>) returns (c: HDMacVerifier<F>)
    requires a.Valid() && b.Valid() && a.r == b.r
    ensures fresh(c) && c.Valid() && c.r == a.r && c.Key() == KeyMul(a.r, a.Key(), b.Key())
  {
    c := new HDMacVerifier.Clone(a);
    c.MulAssign(b);
  }

  // ---- TSPA: x1 + x2 + x3 + (x2 + x4)(x3 + x5) over GF(2) ----

  ghost function TspaP2<F>(r: Ring<F>, x: seq<seq<F>>): seq<F>
    requires |x| == 5 && forall i :: 0 <= i < 5 ==> x[i] != []
  {
    HdAdd(r, HdAdd(r, HdAdd(r, x[0], x[1]), x[2]), MulSeq(r, HdAdd(r, x[1], x[3]), HdAdd(r, x[2], x[4])))
  }

  ghost function TspaV2<F>(r: Ring<F>, delta: F, k: seq<HdKey<F>>): HdKey<F>
    requires |k| == 5
  {
    KeyAdd(r, delta, KeyAdd(r, delta, KeyAdd(r, delta, k[0], k[1]), k[2]),
           KeyMul(r, KeyAdd(r, delta, k[1], k[3]), KeyAdd(r, delta, k[2], k[4])))
  }

  function TspaValue2<F>(r: Ring<F>, x: seq<F>): F
    requires |x| == 5
  {
    r.add(r.add(r.add(x[0], x[1]), x[2]), r.mul(r.add(x[1], x[3]), r.add(x[2], x[4])))
  }

  lemma TspaAuth2<F(!new)>(r: Ring<F>, delta: F, x: seq<seq<F>>, k: seq<HdKey<F>>, v: seq<F>)
    requires IsRing(r) && HdAll(r, delta, x, k, v) && |x| == 5 && forall i :: 0 <= i < 5 ==> x[i] != []
    ensures Hd(r, delta, TspaP2(r, x), TspaV2(r, delta, k), TspaValue2(r, v), 2)
  {
    assert HdAdd(r, x[2], x[4]) != [];
    hide IsRing, Hd, HdAdd, MulSeq, KeyAdd, KeyMul;
    AddHd(r, delta, x[0], k[0], v[0], 1, x[1], k[1], v[1], 1);
    AddHd(r, delta, HdAdd(r, x[0], x[1]), KeyAdd(r, delta, k[0], k[1]), r.add(v[0], v[1]), 1, x[2], k[2], v[2], 1);
    AddHd(r, delta, x[1], k[1], v[1], 1, x[3], k[3], v[3], 1);
    AddHd(r, delta, x[2], k[2], v[2], 1, x[4], k[4], v[4], 1);
    MulHd(r, delta, HdAdd(r, x[1], x[3]), KeyAdd(r, delta, k[1], k[3]), r.add(v[1], v[3]), 1,
          HdAdd(r, x[2], x[4]), KeyAdd(r, delta, k[2], k[4]), r.add(v[2], v[4]), 1);
    AddHd(r, delta, HdAdd(r, HdAdd(r, x[0], x[1]), x[2]), KeyAdd(r, delta, KeyAdd(r, delta, k[0], k[1]), k[2]),
          r.add(r.add(v[0], v[1]), v[2]), 1,
          MulSeq(r, HdAdd(r, x[1], x[3]), HdAdd(r, x[2], x[4])),
          KeyMul(r, KeyAdd(r, delta, k[1], k[3]), KeyAdd(r, delta, k[2], k[4])),
          r.mul(r.add(v[1], v[3]), r.add(v[2], v[4])), 2);
  }

  method ExpandTspaProver2<F(!new, ==)>(r: Ring<F>, sigma: seq<nat>, seed: seq<MacProver<F>>)
    returns (out: HDMacProver<F>)
    requires IsRing(r) && SigmaOk(sigma, 5, |seed|)
    ensures fresh(out) && out.Valid() && out.r == r && out.Full() == TspaP2(r, PickedP(r, seed, sigma))
  {
    hide IsRing, HdAdd, MulSeq;
    out := new HDMacProver.From(r, seed[sigma[0]]);
    var x2 := new HDMacProver.From(r, seed[sigma[1]]);
    var x3 := new HDMacProver.From(r, seed[sigma[2]]);
    var x4 := new HDMacProver.From(r, seed[sigma[3]]);
    var x5 := new HDMacProver.From(r, seed[sigma[4]]);
    out.AddAssign(x2);
    out.AddAssign(x3);
    x2.AddAssign(x4);
    x3.AddAssign(x5);
    x2.MulAssign(x3);
    out.AddAssign(x2);
  }

  method ExpandTspaVerifier2<F(!new, ==)>(r: Ring<F>, delta: F, sigma: seq<nat>, seed: seq<MacVerifier<F>>)
    returns (out: HDMacVerifier<F>)
    requires IsRing(r) && SigmaOk(sigma, 5, |seed|)
    ensures fresh(out) && out.Valid() && out.r == r && out.Key() == TspaV2(r, delta, PickedV(r, seed, sigma))
  {
    hide IsRing, KeyAdd, KeyMul;
    out := new HDMacVerifier.From(r, seed[sigma[0]]);
    var x2 := new HDMacVerifier.From(r, seed[sigma[1]]);
    var x3 := new HDMacVerifier.From(r, seed[sigma[2]]);
    var x4 := new HDMacVerifier.From(r, seed[sigma[3]]);
    var x5 := new HDMacVerifier.From(r, seed[sigma[4]]);
    out.AddAssign(delta, x2);
    out.AddAssign(delta, x3);
    x2.AddAssign(delta, x4);
    x3.AddAssign(delta, x5);
    x2.MulAssign(x3);
    out.AddAssign(delta, x2);
  }

  // ---- TSPA: x1 xor (x2 + x3 + x4 x5 - x2 x3 - x3 x4 - x2 x5) over the prime field ----

  ghost function TspaPp<F>(r: Ring<F>, x: seq<seq<F>>): seq<F>
    requires |x| == 5 && forall i :: 0 <= i < 5 ==> x[i] != []
  {
    var a := HdAdd(r, HdAdd(r, x[1], x[2]), MulSeq(r, x[3], x[4]));
    var t := HdSub(r, HdSub(r, HdSub(r, a, MulSeq(r, x[1], x[2])), MulSeq(r, x[2], x[3])), MulSeq(r, x[1], x[4]));
    HdXor(r, t, x[0])
  }

  ghost function TspaVp<F>(r: Ring<F>, delta: F, k: seq<HdKey<F>>): HdKey<F>
    requires |k| == 5
  {
    var a := KeyAdd(r, delta, KeyAdd(r, delta, k[1], k[2]), KeyMul(r, k[3], k[4]));
    var t := KeySub(r, delta, KeySub(r, delta, KeySub(r, delta, a, KeyMul(r, k[1], k[2])), KeyMul(r, k[2], k[3])),
                    KeyMul(r, k[1], k[4]));
    KeyXor(r, delta, t, k[0])
  }

  function TspaInner<F>(r: Ring<F>, x: seq<F>): F
    requires |x| == 5
  {
    var a := r.add(r.add(x[1], x[2]), r.mul(x[3], x[4]));
    r.Sub(r.Sub(r.Sub(a, r.mul(x[1], x[2])), r.mul(x[2], x[3])), r.mul(x[1], x[4]))
  }

  lemma TspaInnerAuth<F(!new)>(r: Ring<F>, delta: F, x: seq<seq<F>>, k: seq<HdKey<F>>, v: seq<F>)
    requires IsRing(r) && HdAll(r, delta, x, k, v) && |x| == 5 && forall i :: 0 <= i < 5 ==> x[i] != []
    ensures var a := HdAdd(r, HdAdd(r, x[1], x[2]), MulSeq(r, x[3], x[4]));
            var t := HdSub(r, HdSub(r, HdSub(r, a, MulSeq(r, x[1], x[2])), MulSeq(r, x[2], x[3])),
                           MulSeq(r, x[1], x[4]));
            var b := KeyAdd(r, delta, KeyAdd(r, delta, k[1], k[2]), KeyMul(r, k[3], k[4]));
            var u := KeySub(r, delta,
                            KeySub(r, delta, KeySub(r, delta, b, KeyMul(r, k[1], k[2])), KeyMul(r, k[2], k[3])),
                            KeyMul(r, k[1], k[4]));
            Hd(r, delta, t, u, TspaInner(r, v), 2)
  {
    hide IsRing, Hd, HdAdd, HdSub, MulSeq, KeyAdd, KeySub, KeyMul;
    AddHd(r, delta, x[1], k[1], v[1], 1, x[2], k[2], v[2], 1);
    MulHd(r, delta, x[3], k[3], v[3], 1, x[4], k[4], v[4], 1);
    MulHd(r, delta, x[1], k[1], v[1], 1, x[2], k[2], v[2], 1);
    MulHd(r, delta, x[2], k[2], v[2], 1, x[3], k[3], v[3], 1);
    MulHd(r, delta, x[1], k[1], v[1], 1, x[4], k[4], v[4], 1);
    var c, l, y := HdAdd(r, x[1], x[2]), KeyAdd(r, delta, k[1], k[2]), r.add(v[1], v[2]);
    AddHd(r, delta, c, l, y, 1, MulSeq(r, x[3], x[4]), KeyMul(r, k[3], k[4]), r.mul(v[3], v[4]), 2);
    c, l, y := HdAdd(r, c, MulSeq(r, x[3], x[4])), KeyAdd(r, delta, l, KeyMul(r, k[3], k[4])),
    r.add(y, r.mul(v[3], v[4]));
    SubHd(r, delta, c, l, y, 2, MulSeq(r, x[1], x[2]), KeyMul(r, k[1], k[2]), r.mul(v[1], v[2]), 2);
    c, l, y := HdSub(r, c, MulSeq(r, x[1], x[2])), KeySub(r, delta, l, KeyMul(r, k[1], k[2])),
    r.Sub(y, r.mul(v[1], v[2]));
    SubHd(r, delta, c, l, y, 2, MulSeq(r, x[2], x[3]), KeyMul(r, k[2], k[3]), r.mul(v[2], v[3]), 2);
    c, l, y := HdSub(r, c, MulSeq(r, x[2], x[3])), KeySub(r, delta, l, KeyMul(r, k[2], k[3])),
    r.Sub(y, r.mul(v[2], v[3]));
    SubHd(r, delta, c, l, y, 2, MulSeq(r, x[1], x[4]), KeyMul(r, k[1], k[4]), r.mul(v[1], v[4]), 2);
  }

  lemma TspaAuthP<F(!new)>(r: Ring<F>, delta: F, x: seq<seq<F>>, k: seq<HdKey<F>>, v: seq<F>)
    requires IsRing(r) && HdAll(r, delta, x, k, v) && |x| == 5 && forall i :: 0 <= i < 5 ==> x[i] != []
    ensures Hd(r, delta, TspaPp(r, x), TspaVp(r, delta, k), XorValue(r, TspaInner(r, v), v[0]), 3)
  {
    hide IsRing, Hd, HdAdd, HdSub, MulSeq, KeyAdd, KeySub, KeyMul, HdXor, KeyXor, TspaInner;
    TspaInnerAuth(r, delta, x, k, v);
    var a := HdAdd(r, HdAdd(r, x[1], x[2]), MulSeq(r, x[3], x[4]));
    var t := HdSub(r, HdSub(r, HdSub(r, a, MulSeq(r, x[1], x[2])), MulSeq(r, x[2], x[3])), MulSeq(r, x[1], x[4]));
    var b := KeyAdd(r, delta, KeyAdd(r, delta, k[1], k[2]), KeyMul(r, k[3], k[4]));
    var u := KeySub(r, delta, KeySub(r, delta, KeySub(r, delta, b, KeyMul(r, k[1], k[2])), KeyMul(r, k[2], k[3])),
                    KeyMul(r, k[1], k[4]));
    XorHd(r, delta, t, u, TspaInner(r, v), 2, x[0], k[0], v[0], 1);
  }

  method TspaInnerProver<F(!new, ==)>(x2: HDMacProver<F>, x3: HDMacProver<F>, x4: HDMacProver<F>, x5: HDMacProver<F>)
    returns (out: HDMacProver<F>)
    requires x2.Valid() && x3.Valid() && x4.Valid() && x5.Valid() && x2.r == x3.r == x4.r == x5.r
    ensures fresh(out) && out.Valid() && out.r == x2.r
    ensures var r, a, b, c, d := x2.r, x2.Full(), x3.Full(), x4.Full(), x5.Full();
            out.Full() == HdSub(r,
                                HdSub(r, HdSub(r, HdAdd(r, HdAdd(r, a, b), MulSeq(r, c, d)), MulSeq(r, a, b)),
                                      MulSeq(r, b, c)), MulSeq(r, a, d))
  {
    hide IsRing, HdAdd, HdSub, MulSeq;
    out := new HDMacProver.Clone(x2);
    out.AddAssign(x3);
    var s23 := TimesProver(x2, x3);
    var s34 := TimesProver(x3, x4);
    var s25 := TimesProver(x2, x5);
    var s45 := TimesProver(x4, x5);
    out.AddAssign(s45);
    out.SubAssign(s23);
    out.SubAssign(s34);
    out.SubAssign(s25);
  }

  method ExpandTspaProverP<F(!new, ==)>(r: Ring<F>, sigma: seq<nat>, seed: seq<MacProver<F>>)
    returns (out: HDMacProver<F>)
    requires IsRing(r) && SigmaOk(sigma, 5, |seed|)
    ensures fresh(out) && out.Valid() && out.r == r && out.Full() == TspaPp(r, PickedP(r, seed, sigma))
  {
    hide IsRing, HdAdd, HdSub, MulSeq, HdXor;
    var x1 := new HDMacProver.From(r, seed[sigma[0]]);
    var x2 := new HDMacProver.From(r, seed[sigma[1]]);
    var x3 := new HDMacProver.From(r, seed[sigma[2]]);
    var x4 := new HDMacProver.From(r, seed[sigma[3]]);
    var x5 := new HDMacProver.From(r, seed[sigma[4]]);
    out := TspaInnerProver(x2, x3, x4, x5);
    out.XorAssign(x1);
  }

  method TspaInnerVerifier<F(!new, ==)>(delta: F, x2: HDMacVerifier<F>, x3: HDMacVerifier<F>, x4: HDMacVerifier<F>,
                                        x5: HDMacVerifier<F>)
    returns (out: HDMacVerifier<F>)
    requires x2.Valid() && x3.Valid() && x4.Valid() && x5.Valid() && x2.r == x3.r == x4.r == x5.r
    ensures fresh(out) && out.Valid() && out.r == x2.r
    ensures var r, a, b, c, d := x2.r, x2.Key(), x3.Key(), x4.Key(), x5.Key();
            var t := KeyAdd(r, delta, KeyAdd(r, delta, a, b), KeyMul(r, c, d));
            out.Key() == KeySub(r, delta, KeySub(r, delta, KeySub(r, delta, t, KeyMul(r, a, b)), KeyMul(r, b, c)),
                                KeyMul(r, a, d))
  {
    hide IsRing, KeyAdd, KeySub, KeyMul;
    out := new HDMacVerifier.Clone(x2);
    out.AddAssign(delta, x3);
    var s23 := TimesVerifier(x2, x3);
    var s34 := TimesVerifier(x3, x4);
    var s25 := TimesVerifier(x2, x5);
    var s45 := TimesVerifier(x4, x5);
    out.AddAssign(delta, s45);
    out.SubAssign(delta, s23);
    out.SubAssign(delta, s34);
    out.SubAssign(delta, s25);
  }

  method ExpandTspaVerifierP<F(!new, ==)>(r: Ring<F>, delta: F, sigma: seq<nat>, seed: seq<MacVerifier<F>>)
    returns (out: HDMacVerifier<F>)
    requires IsRing(r) && SigmaOk(sigma, 5, |seed|)
    ensures fresh(out) && out.Valid() && out.r == r && out.Key() == TspaVp(r, delta, PickedV(r, seed, sigma))
  {
    hide IsRing, KeyAdd, KeySub, KeyMul, KeyXor;
    var x1 := new HDMacVerifier.From(r, seed[sigma[0]]);
    var x2 := new HDMacVerifier.From(r, seed[sigma[1]]);
    var x3 := new HDMacVerifier.From(r, seed[sigma[2]]);
    var x4 := new HDMacVerifier.From(r, seed[sigma[3]]);
    var x5 := new HDMacVerifier.From(r, seed[sigma[4]]);
    out := TspaInnerVerifier(delta, x2, x3, x4, x5);
    out.XorAssign(delta, x1);
  }

  // ---- seed bits in both fields ----

  /** The same bits, as elements of a binary ring and of the prime field. */
  ghost predicate SameBits<F>(r: Ring<F>, xs: seq<F>, ys: seq<Fp>) {
    && |xs| == |ys| && AreBits(r, xs)
    && forall i :: 0 <= i < |xs| ==> ys[i] == BitNat(r, xs[i])
  }

  lemma XorBits(x: Fp, y: Fp)
    requires x <= 1 && y <= 1
    ensures XorValue(FP, x, y) == if x == y then 0 else 1
  {
    ToFpSmall(x);
    ToFpSmall(y);
    ToFpSmall(1);
    ToFpSmall(0);
    NegHom(1);
    AddHom(-1, -1);
    MulHom(x, y);
    MulHom(-2, x * y);
    AddHom(x, y);
    AddHom(x + y, -2 * (x * y));
    assert XorValue(FP, x, y) == ToFp(x + y - 2 * (x * y));
  }

  lemma TspaInnerInt(x: seq<Fp>, b: int, c: int, d: int, e: int)
    requires |x| == 5 && x[1] == b && x[2] == c && x[3] == d && x[4] == e
    ensures TspaInner(FP, x) == ToFp(b + c + d * e - b * c - c * d - b * e)
  {
    forall i | 0 <= i < 5 ensures ToFp(x[i]) == x[i] {
      Canonical(x[i]);
    }
    AddHom(b, c);
    MulHom(d, e);
    MulHom(b, c);
    MulHom(c, d);
    MulHom(b, e);
    AddHom(b + c, d * e);
    SubHom(b + c + d * e, b * c);
    SubHom(b + c + d * e - b * c, c * d);
    SubHom(b + c + d * e - b * c - c * d, b * e);
  }

  /** Over bits the inner formula is x2 + x3 + (x2 + x4)(x3 + x5) modulo 2. */
  lemma TspaTable(b: nat, c: nat, d: nat, e: nat)
    requires b <= 1 && c <= 1 && d <= 1 && e <= 1
    ensures var t := b + c + d * e - b * c - c * d - b * e;
            0 <= t <= 1 && t == (b + c + (b + d) * (c + e)) % 2
  {
    assert b == 0 || b == 1;
    assert c == 0 || c == 1;
    assert d == 0 || d == 1;
    assert e == 0 || e == 1;
  }

  lemma Parities<F(!new)>(r: Ring<F>, x: F, y: F)
    requires IsBinary(r) && IsBit(r, x) && IsBit(r, y)
    ensures IsBit(r, r.add(x, y)) && BitNat(r, r.add(x, y)) == (BitNat(r, x) + BitNat(r, y)) % 2
    ensures IsBit(r, r.mul(x, y)) && BitNat(r, r.mul(x, y)) == BitNat(r, x) * BitNat(r, y)
  {
    AddBits(r, x, y);
  }

  lemma SmallProduct(u: nat, v: nat)
    requires u <= 2 && v <= 2
    ensures (u % 2) * (v % 2) == (u * v) % 2
  {
    if u == 0 {
    } else if u == 1 {
    } else {
      assert u * v == v + v;
    }
  }

  lemma TspaParity(a: nat, b: nat, c: nat, d: nat, e: nat)
    requires a <= 1 && b <= 1 && c <= 1 && d <= 1 && e <= 1
    ensures ((((a + b) % 2 + c) % 2) + ((b + d) % 2) * ((c + e) % 2)) % 2 == TspaBit(a, b, c, d, e)
  {
    var p, q := (b + d) * (c + e), ((b + d) % 2) * ((c + e) % 2);
    assert q == p % 2 by {
      SmallProduct(b + d, c + e);
    }
    ModuloTwo(a, b, c, p, q);
  }

  lemma ModuloTwo(a: nat, b: nat, c: nat, p: nat, q: nat)
    requires q == p % 2
    ensures (((a + b) % 2 + c) % 2 + q) % 2 == (a + (b + c + p) % 2) % 2
  {
  }

  function TspaBit(a: nat, b: nat, c: nat, d: nat, e: nat): nat {
    (a + (b + c + (b + d) * (c + e)) % 2) % 2
  }

  lemma TspaBit2<F(!new)>(r: Ring<F>, x: seq<F>)
    requires IsBinary(r) && |x| == 5 && AreBits(r, x)
    ensures IsBit(r, TspaValue2(r, x))
    ensures BitNat(r, TspaValue2(r, x))
         == TspaBit(BitNat(r, x[0]), BitNat(r, x[1]), BitNat(r, x[2]), BitNat(r, x[3]), BitNat(r, x[4]))
  {
    hide IsRing, IsBinary, IsBit, BitNat, TspaBit;
    Parities(r, x[0], x[1]);
    Parities(r, r.add(x[0], x[1]), x[2]);
    Parities(r, x[1], x[3]);
    Parities(r, x[2], x[4]);
    Parities(r, r.add(x[1], x[3]), r.add(x[2], x[4]));
    Parities(r, r.add(r.add(x[0], x[1]), x[2]), r.mul(r.add(x[1], x[3]), r.add(x[2], x[4])));
    TspaParity(BitNat(r, x[0]), BitNat(r, x[1]), BitNat(r, x[2]), BitNat(r, x[3]), BitNat(r, x[4]));
  }

  lemma TspaBitP(x: seq<Fp>, a: nat, b: nat, c: nat, d: nat, e: nat)
    requires |x| == 5 && x[0] == a <= 1 && x[1] == b <= 1 && x[2] == c <= 1 && x[3] == d <= 1 && x[4] == e <= 1
    ensures XorValue(FP, TspaInner(FP, x), x[0]) == TspaBit(a, b, c, d, e)
  {
    hide XorValue, TspaInner;
    TspaInnerInt(x, b, c, d, e);
    TspaTable(b, c, d, e);
    ToFpSmall(0);
    ToFpSmall(1);
    XorBits(TspaInner(FP, x), x[0]);
  }

  /** The two formulas carry the same bit. */
  lemma TspaAgrees<F(!new)>(r: Ring<F>, xs: seq<F>, ys: seq<Fp>)
    requires IsBinary(r) && |xs| == 5 && SameBits(r, xs, ys)
    ensures IsBit(r, TspaValue2(r, xs)) && XorValue(FP, TspaInner(FP, ys), ys[0]) == BitNat(r, TspaValue2(r, xs))
  {
    hide IsRing, IsBinary, XorValue, TspaInner, BitNat, TspaBit, TspaValue2;
    TspaBit2(r, xs);
    TspaBitP(ys, BitNat(r, xs[0]), BitNat(r, xs[1]), BitNat(r, xs[2]), BitNat(r, xs[3]), BitNat(r, xs[4]));
  }
}
