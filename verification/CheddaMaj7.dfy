/** The second predicate: the exclusive or of four seed bits and the majority of seven others. */
module CheddaMaj7 {
  import opened Rings
  import opened PrimeField
  import opened Bits
  import opened Polynomials
  import opened Homcom
  import opened HdQuicksilver
  import opened HdMacs
  import opened HdValues
  import opened CheddaPrg

  // ---- majority over GF(2): the sum of all products of four of the seven ----

  /** out, plus t times every product of `depth` of the values from position i on. */
  ghost function AddTermsP<F>(r: Ring<F>, out: seq<F>, t: seq<F>, xs: seq<seq<F>>, i: nat, depth: nat): seq<F>
    requires t != [] && forall j :: 0 <= j < |xs| ==> xs[j] != []
    decreases |xs| + 1 - i, depth
  {
    if depth == 0 then HdAdd(r, out, t)
    else if i + depth > |xs| then out
    else AddTermsP(r, AddTermsP(r, out, MulSeq(r, t, xs[i]), xs, i + 1, depth - 1), t, xs, i + 1, depth)
  }

  ghost function AddTermsV<F>(r: Ring<F>, delta: F, out: HdKey<F>, t: HdKey<F>, ks: seq<HdKey<F>>, i: nat,
                              depth: nat): HdKey<F>
    decreases |ks| + 1 - i, depth
  {
    if depth == 0 then KeyAdd(r, delta, out, t)
    else if i + depth > |ks| then out
    else AddTermsV(r, delta, AddTermsV(r, delta, out, KeyMul(r, t, ks[i]), ks, i + 1, depth - 1), t, ks, i + 1, depth)
  }

  ghost function AddTerms<F>(r: Ring<F>, out: F, t: F, vs: seq<F>, i: nat, depth: nat): F
    decreases |vs| + 1 - i, depth
  {
    if depth == 0 then r.add(out, t)
    else if i + depth > |vs| then out
    else AddTerms(r, AddTerms(r, out, r.mul(t, vs[i]), vs, i + 1, depth - 1), t, vs, i + 1, depth)
  }

  lemma {:induction false} AddTermsHd<F(!new)>(r: Ring<F>, delta: F, out: seq<F>, outK: HdKey<F>, outV: F, d: nat,
                                               t: seq<F>, tK: HdKey<F>, tV: F, e: nat,
                                               xs: seq<seq<F>>, ks: seq<HdKey<F>>, vs: seq<F>, i: nat, depth: nat)
    requires IsRing(r) && HdAll(r, delta, xs, ks, vs) && t != [] && forall j :: 0 <= j < |xs| ==> xs[j] != []
    requires Hd(r, delta, out, outK, outV, d) && Hd(r, delta, t, tK, tV, e)
    ensures Hd(r, delta, AddTermsP(r, out, t, xs, i, depth), AddTermsV(r, delta, outK, tK, ks, i, depth),
               AddTerms(r, outV, tV, vs, i, depth), if depth == 0 || i + depth <= |xs| then Max(d, e + depth) else d)
    decreases |xs| + 1 - i, depth
  {
    hide IsRing, Hd, HdAdd, MulSeq, KeyAdd, KeyMul;
    if depth == 0 {
      AddHd(r, delta, out, outK, outV, d, t, tK, tV, e);
    } else if i + depth <= |xs| {
      MulHd(r, delta, t, tK, tV, e, xs[i], ks[i], vs[i], 1);
      AddTermsHd(r, delta, out, outK, outV, d, MulSeq(r, t, xs[i]), KeyMul(r, tK, ks[i]), r.mul(tV, vs[i]), e + 1, xs,
                 ks, vs, i + 1, depth - 1);
      AddTermsHd(r, delta, AddTermsP(r, out, MulSeq(r, t, xs[i]), xs, i + 1, depth - 1),
                 AddTermsV(r, delta, outK, KeyMul(r, tK, ks[i]), ks, i + 1, depth - 1),
                 AddTerms(r, outV, r.mul(tV, vs[i]), vs, i + 1, depth - 1), Max(d, e + depth),
                 t, tK, tV, e, xs, ks, vs, i + 1, depth);
    }
  }

  // ---- counting products: a binomial coefficient, modulo 2 ----

  function Choose(n: nat, k: nat): nat {
    if k == 0 then 1 else if n == 0 then 0 else Choose(n - 1, k - 1) + Choose(n - 1, k)
  }

  lemma {:induction false} ChooseFew(n: nat, k: nat)
    requires n < k
    ensures Choose(n, k) == 0
  {
    if n > 0 {
      ChooseFew(n - 1, k - 1);
      ChooseFew(n - 1, k);
    }
  }

  function Ones<F(==)>(r: Ring<F>, vs: seq<F>, i: nat): (n: nat)
    requires i <= |vs|
    ensures n <= |vs| - i
    decreases |vs| - i
  {
    if i == |vs| then 0 else BitNat(r, vs[i]) + Ones(r, vs, i + 1)
  }

  /** t, n times. */
  ghost function Repeat<F>(r: Ring<F>, t: F, n: nat): F {
    if n % 2 == 0 then r.zero else t
  }

  lemma RepeatAdds<F(!new)>(r: Ring<F>, out: F, t: F, m: nat, n: nat)
    requires IsBinary(r)
    ensures r.add(r.add(out, Repeat(r, t, m)), Repeat(r, t, n)) == r.add(out, Repeat(r, t, m + n))
  {
    AddZero(r, out);
    AddZero(r, r.add(out, t));
    AddAssoc(r, out, t, t);
    SelfInverse(r, t);
    hide IsRing;
    assert (m + n) % 2 == if m % 2 == n % 2 then 0 else 1;
  }

  /** On bits, the products of `depth` out of w ones sum up to C(w, depth) modulo 2. */
  lemma {:induction false} AddTermsCounts<F(!new)>(r: Ring<F>, out: F, t: F, vs: seq<F>, i: nat, depth: nat)
    requires IsBinary(r) && AreBits(r, vs) && i <= |vs|
    ensures AddTerms(r, out, t, vs, i, depth) == r.add(out, Repeat(r, t, Choose(Ones(r, vs, i), depth)))
    decreases |vs| + 1 - i, depth
  {
    hide IsRing, IsBinary, Repeat;
    if depth == 0 {
      OnceIs(r, t);
    } else if i + depth > |vs| {
      ChooseFew(Ones(r, vs, i), depth);
      NeverIs(r, out, t);
    } else {
      var w := Ones(r, vs, i + 1);
      var rest := AddTerms(r, out, r.mul(t, vs[i]), vs, i + 1, depth - 1);
      AddTermsCounts(r, out, r.mul(t, vs[i]), vs, i + 1, depth - 1);
      AddTermsCounts(r, rest, t, vs, i + 1, depth);
      TimesBit(r, t, vs[i], Choose(w, depth - 1));
      RepeatAdds(r, out, t, BitNat(r, vs[i]) * Choose(w, depth - 1), Choose(w, depth));
    }
  }

  lemma OnceIs<F(!new)>(r: Ring<F>, t: F)
    ensures Repeat(r, t, 1) == t
  {
  }

  lemma NeverIs<F(!new)>(r: Ring<F>, out: F, t: F)
    requires IsBinary(r)
    ensures r.add(out, Repeat(r, t, 0)) == out
  {
    AddZero(r, out);
  }

  lemma TimesBit<F(!new)>(r: Ring<F>, t: F, x: F, n: nat)
    requires IsBinary(r) && IsBit(r, x)
    ensures Repeat(r, r.mul(t, x), n) == Repeat(r, t, BitNat(r, x) * n)
  {
    MulZero(r, t);
    MulOne(r, t);
    MulComm(r, t, r.one);
    hide IsRing;
  }

  lemma MajorityTable(w: nat)
    requires w <= 7
    ensures Choose(w, 4) % 2 == if w >= 4 then 1 else 0
  {
    assert Choose(0, 4) == 0 && Choose(1, 4) == 0 && Choose(2, 4) == 0 && Choose(3, 4) == 0;
    assert Choose(4, 4) == 1;
    assert Choose(5, 4) == 5;
    assert Choose(6, 4) == 15;
    assert Choose(7, 4) == 35;
  }

  // ---- the loops ----

  ghost predicate AllValid<F(!new)>(r: Ring<F>, xs: seq<HDMacProver<F>>)
    reads xs
  {
    forall i :: 0 <= i < |xs| ==> xs[i].Valid() && xs[i].r == r
  }

  ghost function Fulls<F(!new)>(r: Ring<F>, xs: seq<HDMacProver<F>>): (cs: seq<seq<F>>)
    reads xs
    requires AllValid(r, xs)
    ensures |cs| == |xs| && forall i :: 0 <= i < |cs| ==> cs[i] != []
  {
    seq(|xs|, i requires 0 <= i < |xs| reads xs requires AllValid(r, xs) => xs[i].Full())
  }

  /** The nested loops below the current product: one more factor at each level. */
  method AddProductsProver<F(!new, ==)>(r: Ring<F>, out: HDMacProver<F>, t: HDMacProver<F>, xs: seq<HDMacProver<F>>,
                                        first: nat, depth: nat)
    requires IsRing(r) && out.Valid() && t.Valid() && out.r == t.r == r && AllValid(r, xs) && out != t && out !in xs
    requires first <= |xs|
    modifies out
    ensures out.Valid() && out.Full() == AddTermsP(r, old(out.Full()), t.Full(), Fulls(r, xs), first, depth)
    decreases depth
  {
    hide IsRing, HdAdd, MulSeq;
    if depth == 0 {
      out.AddAssign(t);
      return;
    }
    ghost var tc, cs := t.Full(), Fulls(r, xs);
    ghost var goal := AddTermsP(r, out.Full(), tc, cs, first, depth);
    var i := first;
    while i + depth <= |xs|
      invariant first <= i <= |xs| && out.Valid() && t.Valid() && t.Full() == tc && AllValid(r, xs)
      invariant Fulls(r, xs) == cs
      invariant AddTermsP(r, out.Full(), tc, cs, i, depth) == goal
    {
      var next := TimesProver(t, xs[i]);
      AddProductsProver(r, out, next, xs, i + 1, depth - 1);
      i := i + 1;
    }
  }

  ghost predicate AllValidV<F(!new)>(r: Ring<F>, xs: seq<HDMacVerifier<F>>)
    reads xs
  {
    forall i :: 0 <= i < |xs| ==> xs[i].Valid() && xs[i].r == r
  }

  ghost function AllKeys<F(!new)>(r: Ring<F>, xs: seq<HDMacVerifier<F>>): (ks: seq<HdKey<F>>)
    reads xs
    requires AllValidV(r, xs)
    ensures |ks| == |xs|
  {
    seq(|xs|, i requires 0 <= i < |xs| reads xs => xs[i].Key())
  }

  method AddProductsVerifier<F(!new, ==)>(r: Ring<F>, delta: F, out: HDMacVerifier<F>, t: HDMacVerifier<F>,
                                          xs: seq<HDMacVerifier<F>>, first: nat, depth: nat)
    requires IsRing(r) && out.Valid() && t.Valid() && out.r == t.r == r && AllValidV(r, xs) && out != t && out !in xs
    requires first <= |xs|
    modifies out
    ensures out.Valid() && out.Key() == AddTermsV(r, delta, old(out.Key()), t.Key(), AllKeys(r, xs), first, depth)
    decreases depth
  {
    hide IsRing, KeyAdd, KeyMul;
    if depth == 0 {
      out.AddAssign(delta, t);
      return;
    }
    ghost var tk, ks := t.Key(), AllKeys(r, xs);
    ghost var goal := AddTermsV(r, delta, out.Key(), tk, ks, first, depth);
    var i := first;
    while i + depth <= |xs|
      invariant first <= i <= |xs| && out.Valid() && t.Valid() && t.Key() == tk && AllValidV(r, xs)
      invariant AllKeys(r, xs) == ks
      invariant AddTermsV(r, delta, out.Key(), tk, ks, i, depth) == goal
    {
      var next := TimesVerifier(t, xs[i]);
      AddProductsVerifier(r, delta, out, next, xs, i + 1, depth - 1);
      i := i + 1;
    }
  }

  /** out, plus every product of four of the values whose first factor is at position i or later. */
  ghost function AddFirstP<F>(r: Ring<F>, out: seq<F>, xs: seq<seq<F>>, i: nat): seq<F>
    requires forall j :: 0 <= j < |xs| ==> xs[j] != []
    decreases |xs| + 4 - i
  {
    if i + 4 > |xs| then out else AddFirstP(r, AddTermsP(r, out, xs[i], xs, i + 1, 3), xs, i + 1)
  }

  ghost function AddFirstV<F>(r: Ring<F>, delta: F, out: HdKey<F>, ks: seq<HdKey<F>>, i: nat): HdKey<F>
    decreases |ks| + 4 - i
  {
    if i + 4 > |ks| then out else AddFirstV(r, delta, AddTermsV(r, delta, out, ks[i], ks, i + 1, 3), ks, i + 1)
  }

  ghost function AddFirst<F>(r: Ring<F>, out: F, vs: seq<F>, i: nat): F
    decreases |vs| + 4 - i
  {
    if i + 4 > |vs| then out else AddFirst(r, AddTerms(r, out, vs[i], vs, i + 1, 3), vs, i + 1)
  }

  method MajProver2<F(!new, ==)>(r: Ring<F>, xs: seq<HDMacProver<F>>) returns (out: HDMacProver<F>)
    requires IsRing(r) && AllValid(r, xs)
    ensures fresh(out) && out.Valid() && out.r == r && out.Full() == AddFirstP(r, [r.zero, r.zero], Fulls(r, xs), 0)
  {
    hide IsRing, HdAdd, MulSeq, AddTermsP;
    out := new HDMacProver.Default(r);
    ghost var cs := Fulls(r, xs);
    ghost var goal := AddFirstP(r, out.Full(), cs, 0);
    var i := 0;
    while i + 4 <= |xs|
      invariant 0 <= i && out.Valid() && out.r == r && fresh(out) && AllValid(r, xs) && Fulls(r, xs) == cs
      invariant AddFirstP(r, out.Full(), cs, i) == goal
    {
      var t := new HDMacProver.Clone(xs[i]);
      AddProductsProver(r, out, t, xs, i + 1, 3);
      i := i + 1;
    }
  }

  method MajVerifier2<F(!new, ==)>(r: Ring<F>, delta: F, xs: seq<HDMacVerifier<F>>) returns (out: HDMacVerifier<F>)
    requires IsRing(r) && AllValidV(r, xs)
    ensures fresh(out) && out.Valid() && out.r == r
    ensures out.Key() == AddFirstV(r, delta, HdKey(r.zero, 1), AllKeys(r, xs), 0)
  {
    hide IsRing, KeyAdd, KeyMul, AddTermsV;
    out := new HDMacVerifier.Default(r);
    ghost var ks := AllKeys(r, xs);
    ghost var goal := AddFirstV(r, delta, out.Key(), ks, 0);
    var i := 0;
    while i + 4 <= |xs|
      invariant 0 <= i && out.Valid() && out.r == r && fresh(out) && AllValidV(r, xs) && AllKeys(r, xs) == ks
      invariant AddFirstV(r, delta, out.Key(), ks, i) == goal
    {
      var t := new HDMacVerifier.Clone(xs[i]);
      AddProductsVerifier(r, delta, out, t, xs, i + 1, 3);
      i := i + 1;
    }
  }

  lemma {:induction false} AddFirstHd<F(!new)>(r: Ring<F>, delta: F, out: seq<F>, outK: HdKey<F>, outV: F, d: nat,
                                               xs: seq<seq<F>>, ks: seq<HdKey<F>>, vs: seq<F>, i: nat)
    requires IsRing(r) && HdAll(r, delta, xs, ks, vs) && forall j :: 0 <= j < |xs| ==> xs[j] != []
    requires Hd(r, delta, out, outK, outV, d)
    ensures Hd(r, delta, AddFirstP(r, out, xs, i), AddFirstV(r, delta, outK, ks, i), AddFirst(r, outV, vs, i),
               if i + 4 <= |xs| then Max(d, 4) else d)
    decreases |xs| + 4 - i
  {
    hide IsRing, Hd, AddTermsP, AddTermsV, AddTerms;
    if i + 4 <= |xs| {
      AddTermsHd(r, delta, out, outK, outV, d, xs[i], ks[i], vs[i], 1, xs, ks, vs, i + 1, 3);
      AddFirstHd(r, delta, AddTermsP(r, out, xs[i], xs, i + 1, 3), AddTermsV(r, delta, outK, ks[i], ks, i + 1, 3),
                 AddTerms(r, outV, vs[i], vs, i + 1, 3), Max(d, 4), xs, ks, vs, i + 1);
    }
  }

  lemma {:induction false} AddFirstIs<F(!new)>(r: Ring<F>, out: F, vs: seq<F>, i: nat)
    requires IsRing(r)
    ensures AddFirst(r, out, vs, i) == AddTerms(r, out, r.one, vs, i, 4)
    decreases |vs| + 4 - i
  {
    hide IsRing;
    if i + 4 <= |vs| {
      MulOne(r, vs[i]);
      AddFirstIs(r, AddTerms(r, out, vs[i], vs, i + 1, 3), vs, i + 1);
    }
  }

  /** Over GF(2), the sum of all products of four out of seven bits is their majority. */
  lemma MajorityBit<F(!new)>(r: Ring<F>, vs: seq<F>)
    requires IsBinary(r) && AreBits(r, vs) && |vs| == 7
    ensures AddFirst(r, r.zero, vs, 0) == if Ones(r, vs, 0) >= 4 then r.one else r.zero
  {
    AddFirstIs(r, r.zero, vs, 0);
    AddTermsCounts(r, r.zero, r.one, vs, 0, 4);
    MajorityTable(Ones(r, vs, 0));
    BinaryTables(r);
    hide IsRing, AddFirst, AddTerms;
  }

  // ---- majority over the prime field 2^61 - 1: a polynomial of degree 7 in the sum of the bits ----

  const MERSENNE_61: int := 2305843009213693951

  /** From the leading coefficient down to that of x; the constant term is zero. */
  const MAJ7: seq<int> := [1162071675278329888, 1505203075458939107, 1582064509099395571, 64051194700380392,
                           544435154953233283, 1889510243661221445, 170193174489582167]

  /** Modulo 2^61 - 1 the polynomial sends 0..3 to 0 and 4..7 to 1. */
  function MajStep(y: int, s: int, i: nat): int
    requires i < 7
  {
    (y * s + MAJ7[i]) % MERSENNE_61
  }

  function MajPoly(s: int, i: nat): int
    requires i < 7
  {
    if i == 0 then MAJ7[0] else MajStep(MajPoly(s, i - 1), s, i)
  }

  lemma {:induction false} MajChain(s: nat, ys: seq<int>, i: nat)
    requires |ys| == 7 && i < 7 && ys[0] == MAJ7[0]
    requires forall j {:trigger ys[j]} :: 1 <= j < 7 ==> ys[j] == MajStep(ys[j - 1], s, j)
    ensures MajPoly(s, i) == ys[i]
  {
    if i > 0 {
      MajChain(s, ys, i - 1);
    }
  }

  lemma MajAt0()
    ensures MajPoly(0, 6) == 170193174489582167
  {
    MajChain(0,
             [1162071675278329888, 1505203075458939107, 1582064509099395571, 64051194700380392, 544435154953233283,
              1889510243661221445, 170193174489582167], 6);
  }

  lemma MajAt1()
    ensures MajPoly(1, 6) == 0
  {
    MajChain(1,
             [1162071675278329888, 361431741523575044, 1943496250622970615, 2007547445323351007, 246139591062890339,
              2135649834724111784, 0], 6);
  }

  lemma MajAt2()
    ensures MajPoly(2, 6) == 0
  {
    MajChain(2,
             [1162071675278329888, 1523503416801904932, 17385324275817533, 98821843252015458, 742078841457264199,
              1067824917362055892, 0], 6);
  }

  lemma MajAt3()
    ensures MajPoly(3, 6) == 0
  {
    MajChain(3,
             [1162071675278329888, 379732082866540869, 415417748485324227, 1310304440156353073, 2169505466208598551,
              1480497614645935245, 0], 6);
  }

  lemma MajAt4()
    ensures MajPoly(4, 6) == 576460752303423488
  {
    MajChain(4,
             [1162071675278329888, 1541803758144870757, 831750514037796746, 1085210241637873425, 273590103077339081,
              678027646756883818, 576460752303423488], 6);
  }

  lemma MajAt5()
    ensures MajPoly(5, 6) == 1844674407370955161
  {
    MajChain(5,
             [1162071675278329888, 398032424209506694, 1266383620933235090, 1784283280939167940, 242479522794297179,
              796064848419013389, 1844674407370955161], 6);
  }

  lemma MajAt6()
    ensures MajPoly(6, 6) == 1921535841011411626
  {
    MajChain(6,
             [1162071675278329888, 1560104099487836582, 1719317069171639259, 1156581572875440142, 566395564564792282,
              676197612622587235, 1921535841011411626], 6);
  }

  lemma MajAt7()
    ensures MajPoly(7, 6) == 1976436865040309101
  {
    MajChain(7,
             [1162071675278329888, 416332765552472519, 2190550858753009253, 1562849150689281457, 2261007172923427678,
              1575659389629357534, 1976436865040309101], 6);
  }

  lemma MajorityPolynomial(s: nat)
    requires s <= 7
    ensures (MajPoly(s, 6) * s) % MERSENNE_61 == if s >= 4 then 1 else 0
  {
    hide MajPoly;
    match s
    case 0 => MajAt0();
    case 1 => MajAt1();
    case 2 => MajAt2();
    case 3 => MajAt3();
    case 4 => MajAt4();
    case 5 => MajAt5();
    case 6 => MajAt6();
    case 7 => MajAt7();
  }

  ghost function SumP<F>(r: Ring<F>, xs: seq<seq<F>>): seq<F>
    requires xs != []
  {
    if |xs| == 1 then xs[0] else HdAdd(r, SumP(r, xs[..|xs| - 1]), xs[|xs| - 1])
  }

  ghost function SumV<F>(r: Ring<F>, delta: F, ks: seq<HdKey<F>>): HdKey<F>
    requires ks != []
  {
    if |ks| == 1 then ks[0] else KeyAdd(r, delta, SumV(r, delta, ks[..|ks| - 1]), ks[|ks| - 1])
  }

  ghost function SumOf<F>(r: Ring<F>, vs: seq<F>): F
    requires vs != []
  {
    if |vs| == 1 then vs[0] else r.add(SumOf(r, vs[..|vs| - 1]), vs[|vs| - 1])
  }

  lemma {:induction false} SumHd<F(!new)>(r: Ring<F>, delta: F, xs: seq<seq<F>>, ks: seq<HdKey<F>>, vs: seq<F>)
    requires IsRing(r) && HdAll(r, delta, xs, ks, vs) && xs != []
    ensures Hd(r, delta, SumP(r, xs), SumV(r, delta, ks), SumOf(r, vs), 1)
  {
    hide IsRing, Hd, HdAdd, KeyAdd;
    var n := |xs| - 1;
    if n > 0 {
      SumHd(r, delta, xs[..n], ks[..n], vs[..n]);
      AddHd(r, delta, SumP(r, xs[..n]), SumV(r, delta, ks[..n]), SumOf(r, vs[..n]), 1, xs[n], ks[n], vs[n], 1);
    }
  }

  /** Horner's rule with the coefficients above, as far as number i. */
  ghost function HornerP(x: seq<Fp>, i: nat): (c: seq<Fp>)
    requires i < 7 && x != []
    ensures c != []
  {
    if i == 0 then [0, ToFp(MAJ7[0])] else HdAddCst(FP, MulSeq(FP, HornerP(x, i - 1), x), ToFp(MAJ7[i]))
  }

  ghost function HornerV(delta: Fp, k: HdKey<Fp>, i: nat): HdKey<Fp>
    requires i < 7
  {
    if i == 0 then HdKey(FpMul(delta, ToFp(MAJ7[0])), 1) else KeyAddCst(FP, delta,
        KeyMul(FP, HornerV(delta, k, i - 1), k), ToFp(MAJ7[i]))
  }

  lemma ConstantHd<F(!new)>(r: Ring<F>, delta: F, x: F)
    requires IsRing(r)
    ensures Hd(r, delta, [r.zero, x], HdKey(r.mul(delta, x), 1), x, 1)
  {
    var c := [r.zero, x];
    assert c[1..][1..] == [];
    assert Eval(r, c[1..], delta) == r.add(x, r.mul(delta, r.zero));
    MulZero(r, delta);
    AddZero(r, x);
    AddZero(r, r.mul(delta, x));
  }

  lemma HornerStep(y: int, s: nat, i: nat)
    requires P == MERSENNE_61 && 1 <= i < 7
    ensures FpAdd(FpMul(ToFp(y), ToFp(s)), ToFp(MAJ7[i])) == ToFp(MajStep(y, s, i))
  {
    MulHom(y, s);
    AddHom(y * s, MAJ7[i]);
    Canonical(ToFp(y * s + MAJ7[i]));
  }

  lemma {:induction false} HornerHd(delta: Fp, x: seq<Fp>, k: HdKey<Fp>, s: nat, i: nat)
    requires P == MERSENNE_61 && i < 7 && x != [] && Hd(FP, delta, x, k, ToFp(s), 1)
    ensures Hd(FP, delta, HornerP(x, i), HornerV(delta, k, i), ToFp(MajPoly(s, i)), i + 1)
  {
    FpIsRing();
    hide IsRing, Hd, HdAddCst, MulSeq, KeyAddCst, KeyMul, MajStep;
    if i == 0 {
      ConstantHd(FP, delta, ToFp(MAJ7[0]));
    } else {
      HornerHd(delta, x, k, s, i - 1);
      MulHd(FP, delta, HornerP(x, i - 1), HornerV(delta, k, i - 1), ToFp(MajPoly(s, i - 1)), i, x, k, ToFp(s), 1);
      AddCstHd(FP, delta, MulSeq(FP, HornerP(x, i - 1), x), KeyMul(FP, HornerV(delta, k, i - 1), k),
               FpMul(ToFp(MajPoly(s, i - 1)), ToFp(s)), i + 1, ToFp(MAJ7[i]));
      HornerStep(MajPoly(s, i - 1), s, i);
    }
  }

  ghost function MajPp(xs: seq<seq<Fp>>): (c: seq<Fp>)
    requires xs != [] && forall j :: 0 <= j < |xs| ==> xs[j] != []
  {
    SumNonempty(xs);
    MulSeq(FP, HornerP(SumP(FP, xs), 6), SumP(FP, xs))
  }

  lemma {:induction false} SumNonempty(xs: seq<seq<Fp>>)
    requires xs != [] && forall j :: 0 <= j < |xs| ==> xs[j] != []
    ensures SumP(FP, xs) != []
  {
    if |xs| > 1 {
      SumNonempty(xs[..|xs| - 1]);
    }
  }

  ghost function MajVp(delta: Fp, ks: seq<HdKey<Fp>>): HdKey<Fp>
    requires ks != []
  {
    KeyMul(FP, HornerV(delta, SumV(FP, delta, ks), 6), SumV(FP, delta, ks))
  }

  function OnesP(vs: seq<Fp>): nat {
    if vs == [] then 0 else OnesP(vs[..|vs| - 1]) + vs[|vs| - 1]
  }

  lemma {:induction false} SumIsOnes(vs: seq<Fp>)
    requires vs != []
    ensures SumOf(FP, vs) == ToFp(OnesP(vs))
  {
    var n := |vs| - 1;
    Canonical(vs[n]);
    if n == 0 {
      assert vs[..0] == [];
    } else {
      SumIsOnes(vs[..n]);
      AddHom(OnesP(vs[..n]), vs[n]);
    }
  }

  lemma {:induction false} AtMostAll(vs: seq<Fp>)
    requires forall i :: 0 <= i < |vs| ==> vs[i] <= 1
    ensures OnesP(vs) <= |vs|
  {
    if vs != [] {
      AtMostAll(vs[..|vs| - 1]);
    }
  }

  /** Degree 8: the leading constant counts as a value of degree one. */
  lemma MajHdP(delta: Fp, xs: seq<seq<Fp>>, ks: seq<HdKey<Fp>>, vs: seq<Fp>)
    requires P == MERSENNE_61 && |xs| == 7 && HdAll(FP, delta, xs, ks, vs)
    requires forall j :: 0 <= j < 7 ==> xs[j] != [] && vs[j] <= 1
    ensures Hd(FP, delta, MajPp(xs), MajVp(delta, ks), if OnesP(vs) >= 4 then 1 else 0, 8)
  {
    FpIsRing();
    hide IsRing, Hd, HornerP, HornerV, MajPoly;
    SumHd(FP, delta, xs, ks, vs);
    SumNonempty(xs);
    SumIsOnes(vs);
    AtMostAll(vs);
    var s := OnesP(vs);
    HornerHd(delta, SumP(FP, xs), SumV(FP, delta, ks), s, 6);
    MulHd(FP, delta, HornerP(SumP(FP, xs), 6), HornerV(delta, SumV(FP, delta, ks), 6), ToFp(MajPoly(s, 6)), 7,
          SumP(FP, xs), SumV(FP, delta, ks), ToFp(s), 1);
    MulHom(MajPoly(s, 6), s);
    MajorityPolynomial(s);
  }

  method SumProver<F(!new, ==)>(r: Ring<F>, xs: seq<HDMacProver<F>>) returns (x: HDMacProver<F>)
    requires IsRing(r) && AllValid(r, xs) && xs != []
    ensures fresh(x) && x.Valid() && x.r == r && x.Full() == SumP(r, Fulls(r, xs))
  {
    hide IsRing, HdAdd;
    ghost var cs := Fulls(r, xs);
    x := new HDMacProver.Clone(xs[0]);
    for i := 1 to |xs|
      invariant fresh(x) && x.Valid() && x.r == r && AllValid(r, xs) && Fulls(r, xs) == cs
      invariant x.Full() == SumP(r, cs[..i])
    {
      assert cs[..i + 1][..i] == cs[..i];
      x.AddAssign(xs[i]);
    }
    assert cs[..|xs|] == cs;
  }

  method SumVerifier<F(!new, ==)>(r: Ring<F>, delta: F, xs: seq<HDMacVerifier<F>>) returns (x: HDMacVerifier<F>)
    requires IsRing(r) && AllValidV(r, xs) && xs != []
    ensures fresh(x) && x.Valid() && x.r == r && x.Key() == SumV(r, delta, AllKeys(r, xs))
  {
    hide IsRing, KeyAdd;
    ghost var ks := AllKeys(r, xs);
    x := new HDMacVerifier.Clone(xs[0]);
    for i := 1 to |xs|
      invariant fresh(x) && x.Valid() && x.r == r && AllValidV(r, xs) && AllKeys(r, xs) == ks
      invariant x.Key() == SumV(r, delta, ks[..i])
    {
      assert ks[..i + 1][..i] == ks[..i];
      x.AddAssign(delta, xs[i]);
    }
    assert ks[..|xs|] == ks;
  }

  method MajProverP(xs: seq<HDMacProver<Fp>>) returns (out: HDMacProver<Fp>)
    requires AllValid(FP, xs) && |xs| == 7
    ensures fresh(out) && out.Valid() && out.r == FP && out.Full() == MajPp(Fulls(FP, xs))
  {
    FpIsRing();
    hide IsRing, HdAddCst, MulSeq, SumP;
    ghost var cs := Fulls(FP, xs);
    SumNonempty(cs);
    var x := SumProver(FP, xs);
    out := new HDMacProver.NewConstant(FP, ToFp(MAJ7[0]));
    for i := 1 to 7
      invariant fresh(out) && out.Valid() && out.r == FP && x.Valid() && x.Full() == SumP(FP, cs) && out != x
      invariant out.Full() == HornerP(SumP(FP, cs), i - 1)
    {
      out.MulAssign(x);
      out.AddAssignConstant(ToFp(MAJ7[i]));
    }
    out.MulAssign(x);
  }

  method MajVerifierP(delta: Fp, xs: seq<HDMacVerifier<Fp>>) returns (out: HDMacVerifier<Fp>)
    requires AllValidV(FP, xs) && |xs| == 7
    ensures fresh(out) && out.Valid() && out.r == FP && out.Key() == MajVp(delta, AllKeys(FP, xs))
  {
    FpIsRing();
    hide IsRing, KeyAddCst, KeyMul, SumV;
    ghost var ks := AllKeys(FP, xs);
    var x := SumVerifier(FP, delta, xs);
    out := new HDMacVerifier.NewConstant(FP, delta, ToFp(MAJ7[0]));
    for i := 1 to 7
      invariant fresh(out) && out.Valid() && out.r == FP && x.Valid() && x.Key() == SumV(FP, delta, ks) && out != x
      invariant out.Key() == HornerV(delta, SumV(FP, delta, ks), i - 1)
    {
      out.MulAssign(x);
      out.AddAssignConstant(delta, ToFp(MAJ7[i]));
    }
    out.MulAssign(x);
  }

  // ---- the predicate ----

  ghost function X4P2<F>(r: Ring<F>, x: seq<seq<F>>): seq<F>
    requires |x| == 11 && forall i :: 0 <= i < 11 ==> x[i] != []
  {
    HdAdd(r, HdAdd(r, HdAdd(r, HdAdd(r, x[0], x[1]), x[2]), x[3]), AddFirstP(r, [r.zero, r.zero], x[4..], 0))
  }

  ghost function X4V2<F>(r: Ring<F>, delta: F, k: seq<HdKey<F>>): HdKey<F>
    requires |k| == 11
  {
    KeyAdd(r, delta, KeyAdd(r, delta, KeyAdd(r, delta, KeyAdd(r, delta, k[0], k[1]), k[2]), k[3]),
           AddFirstV(r, delta, HdKey(r.zero, 1), k[4..], 0))
  }

  function X4Value2<F>(r: Ring<F>, v: seq<F>, maj: F): F
    requires |v| == 11
  {
    r.add(r.add(r.add(r.add(v[0], v[1]), v[2]), v[3]), maj)
  }

  lemma X4Auth2<F(!new)>(r: Ring<F>, delta: F, x: seq<seq<F>>, k: seq<HdKey<F>>, v: seq<F>)
    requires IsRing(r) && HdAll(r, delta, x, k, v) && |x| == 11 && forall i :: 0 <= i < 11 ==> x[i] != []
    ensures Hd(r, delta, X4P2(r, x), X4V2(r, delta, k), X4Value2(r, v, AddFirst(r, r.zero, v[4..], 0)), 4)
  {
    hide IsRing, Hd, HdAdd, KeyAdd, AddFirstP, AddFirstV, AddFirst;
    ZeroHd(r, delta);
    AddFirstHd(r, delta, [r.zero, r.zero], HdKey(r.zero, 1), r.zero, 1, x[4..], k[4..], v[4..], 0);
    AddHd(r, delta, x[0], k[0], v[0], 1, x[1], k[1], v[1], 1);
    AddHd(r, delta, HdAdd(r, x[0], x[1]), KeyAdd(r, delta, k[0], k[1]), r.add(v[0], v[1]), 1, x[2], k[2], v[2], 1);
    AddHd(r, delta, HdAdd(r, HdAdd(r, x[0], x[1]), x[2]), KeyAdd(r, delta, KeyAdd(r, delta, k[0], k[1]), k[2]),
          r.add(r.add(v[0], v[1]), v[2]), 1, x[3], k[3], v[3], 1);
    AddHd(r, delta, HdAdd(r, HdAdd(r, HdAdd(r, x[0], x[1]), x[2]), x[3]),
          KeyAdd(r, delta, KeyAdd(r, delta, KeyAdd(r, delta, k[0], k[1]), k[2]), k[3]),
          r.add(r.add(r.add(v[0], v[1]), v[2]), v[3]), 1, AddFirstP(r, [r.zero, r.zero], x[4..], 0),
          AddFirstV(r, delta, HdKey(r.zero, 1), k[4..], 0), AddFirst(r, r.zero, v[4..], 0), 4);
  }

  lemma ZeroHd<F(!new)>(r: Ring<F>, delta: F)
    requires IsRing(r)
    ensures Hd(r, delta, [r.zero, r.zero], HdKey(r.zero, 1), r.zero, 1)
  {
    assert [r.zero, r.zero] == Zeros(r, 2);
    EvalZeros(r, 2, delta);
  }

  ghost function X4Pp(x: seq<seq<Fp>>): seq<Fp>
    requires |x| == 11 && forall i :: 0 <= i < 11 ==> x[i] != []
  {
    var a := HdXor(FP, HdXor(FP, HdXor(FP, x[0], x[1]), x[2]), x[3]);
    HdXor(FP, a, MajPp(x[4..]))
  }

  ghost function X4Vp(delta: Fp, k: seq<HdKey<Fp>>): HdKey<Fp>
    requires |k| == 11
  {
    KeyXor(FP, delta, KeyXor(FP, delta, KeyXor(FP, delta, KeyXor(FP, delta, k[0], k[1]), k[2]), k[3]),
           MajVp(delta, k[4..]))
  }

  function X4ValueP(v: seq<Fp>, maj: Fp): Fp
    requires |v| == 11
  {
    XorValue(FP, XorValue(FP, XorValue(FP, XorValue(FP, v[0], v[1]), v[2]), v[3]), maj)
  }

  lemma XorNonempty<F>(r: Ring<F>, a: seq<F>, b: seq<F>)
    requires a != [] && b != []
    ensures HdXor(r, a, b) != []
  {
  }

  lemma Xor4Hd(delta: Fp, x: seq<seq<Fp>>, k: seq<HdKey<Fp>>, v: seq<Fp>)
    requires HdAll(FP, delta, x, k, v) && |x| == 11 && forall i :: 0 <= i < 11 ==> x[i] != []
    ensures Hd(FP, delta, HdXor(FP, HdXor(FP, HdXor(FP, x[0], x[1]), x[2]), x[3]),
               KeyXor(FP, delta, KeyXor(FP, delta, KeyXor(FP, delta, k[0], k[1]), k[2]), k[3]),
               XorValue(FP, XorValue(FP, XorValue(FP, v[0], v[1]), v[2]), v[3]), 4)
    ensures HdXor(FP, x[0], x[1]) != [] && HdXor(FP, HdXor(FP, x[0], x[1]), x[2]) != []
    ensures HdXor(FP, HdXor(FP, HdXor(FP, x[0], x[1]), x[2]), x[3]) != []
  {
    FpIsRing();
    hide IsRing, Hd, HdXor, KeyXor, XorValue;
    XorNonempty(FP, x[0], x[1]);
    XorHd(FP, delta, x[0], k[0], v[0], 1, x[1], k[1], v[1], 1);
    var a, l, y := HdXor(FP, x[0], x[1]), KeyXor(FP, delta, k[0], k[1]), XorValue(FP, v[0], v[1]);
    XorNonempty(FP, a, x[2]);
    XorHd(FP, delta, a, l, y, 2, x[2], k[2], v[2], 1);
    a, l, y := HdXor(FP, a, x[2]), KeyXor(FP, delta, l, k[2]), XorValue(FP, y, v[2]);
    XorNonempty(FP, a, x[3]);
    XorHd(FP, delta, a, l, y, 3, x[3], k[3], v[3], 1);
  }

  lemma X4AuthP(delta: Fp, x: seq<seq<Fp>>, k: seq<HdKey<Fp>>, v: seq<Fp>)
    requires P == MERSENNE_61 && HdAll(FP, delta, x, k, v) && |x| == 11
    requires forall i :: 0 <= i < 11 ==> x[i] != [] && v[i] <= 1
    ensures Hd(FP, delta, X4Pp(x), X4Vp(delta, k), X4ValueP(v, if OnesP(v[4..]) >= 4 then 1 else 0), 12)
  {
    hide HdXor, KeyXor, XorValue, MajPp, MajVp, OnesP, Hd;
    FpIsRing();
    hide IsRing;
    MajHdP(delta, x[4..], k[4..], v[4..]);
    Xor4Hd(delta, x, k, v);
    XorHd(FP, delta, HdXor(FP, HdXor(FP, HdXor(FP, x[0], x[1]), x[2]), x[3]),
          KeyXor(FP, delta, KeyXor(FP, delta, KeyXor(FP, delta, k[0], k[1]), k[2]), k[3]),
          XorValue(FP, XorValue(FP, XorValue(FP, v[0], v[1]), v[2]), v[3]), 4,
          MajPp(x[4..]), MajVp(delta, k[4..]), if OnesP(v[4..]) >= 4 then 1 else 0, 8);
  }

  lemma {:induction false} SameOnes<F(!new)>(r: Ring<F>, xs: seq<F>, ys: seq<Fp>, i: nat)
    requires SameBits(r, xs, ys) && i <= |xs|
    ensures Ones(r, xs, i) + OnesP(ys[..i]) == OnesP(ys)
    decreases |xs| - i
  {
    if i == |xs| {
      assert ys[..i] == ys;
    } else {
      SameOnes(r, xs, ys, i + 1);
      assert ys[..i + 1][..i] == ys[..i];
    }
  }

  lemma XorAgrees<F(!new)>(r: Ring<F>, x: F, y: F, a: Fp, b: Fp)
    requires IsBinary(r) && IsBit(r, x) && IsBit(r, y) && a == BitNat(r, x) && b == BitNat(r, y)
    ensures IsBit(r, r.add(x, y)) && XorValue(FP, a, b) == BitNat(r, r.add(x, y))
  {
    AddBits(r, x, y);
    XorBits(a, b);
  }

  /** The two formulas carry the same bit. */
  lemma X4Agrees<F(!new)>(r: Ring<F>, xs: seq<F>, ys: seq<Fp>)
    requires IsBinary(r) && |xs| == 11 && SameBits(r, xs, ys)
    ensures var maj2, maj := AddFirst(r, r.zero, xs[4..], 0), if OnesP(ys[4..]) >= 4 then 1 else 0;
            IsBit(r, X4Value2(r, xs, maj2)) && X4ValueP(ys, maj) == BitNat(r, X4Value2(r, xs, maj2))
  {
    var maj2, maj := AddFirst(r, r.zero, xs[4..], 0), if OnesP(ys[4..]) >= 4 then 1 else 0;
    MajorityBit(r, xs[4..]);
    assert SameBits(r, xs[4..], ys[4..]);
    SameOnes(r, xs[4..], ys[4..], 0);
    assert ys[4..][..0] == [];
    assert IsBit(r, maj2) && maj == BitNat(r, maj2) by {
      BinaryTables(r);
    }
    hide IsRing, IsBinary, XorValue, AddFirst, OnesP;
    XorAgrees(r, xs[0], xs[1], ys[0], ys[1]);
    XorAgrees(r, r.add(xs[0], xs[1]), xs[2], XorValue(FP, ys[0], ys[1]), ys[2]);
    XorAgrees(r, r.add(r.add(xs[0], xs[1]), xs[2]), xs[3], XorValue(FP, XorValue(FP, ys[0], ys[1]), ys[2]), ys[3]);
    XorAgrees(r, r.add(r.add(r.add(xs[0], xs[1]), xs[2]), xs[3]), maj2,
              XorValue(FP, XorValue(FP, XorValue(FP, ys[0], ys[1]), ys[2]), ys[3]), maj);
  }

  method MapProver<F(!new, ==)>(r: Ring<F>, sigma: seq<nat>, seed: seq<MacProver<F>>) returns (xs: seq<HDMacProver<F>>)
    requires IsRing(r) && SigmaOk(sigma, |sigma|, |seed|)
    ensures fresh(xs) && AllValid(r, xs) && Fulls(r, xs) == PickedP(r, seed, sigma)
    ensures forall i, j :: 0 <= i < j < |xs| ==> xs[i] != xs[j]
  {
    hide IsRing, FromMac;
    xs := [];
    for i := 0 to |sigma|
      invariant |xs| == i && fresh(xs) && AllValid(r, xs) && forall j, k :: 0 <= j < k < i ==> xs[j] != xs[k]
      invariant forall j :: 0 <= j < i ==> xs[j].Full() == FromMac(r, seed[sigma[j]])
    {
      var x := new HDMacProver.From(r, seed[sigma[i]]);
      xs := xs + [x];
    }
  }

  method MapVerifier<F(!new, ==)>(r: Ring<F>, sigma: seq<nat>, seed: seq<MacVerifier<F>>)
    returns (xs: seq<HDMacVerifier<F>>)
    requires IsRing(r) && SigmaOk(sigma, |sigma|, |seed|)
    ensures fresh(xs) && AllValidV(r, xs) && AllKeys(r, xs) == PickedV(r, seed, sigma)
    ensures forall i, j :: 0 <= i < j < |xs| ==> xs[i] != xs[j]
  {
    hide IsRing;
    xs := [];
    for i := 0 to |sigma|
      invariant |xs| == i && fresh(xs) && AllValidV(r, xs) && forall j, k :: 0 <= j < k < i ==> xs[j] != xs[k]
      invariant forall j :: 0 <= j < i ==> xs[j].Key() == KeyFromMac(r, seed[sigma[j]])
    {
      var x := new HDMacVerifier.From(r, seed[sigma[i]]);
      xs := xs + [x];
    }
  }

  method ExpandX4Prover2<F(!new, ==)>(r: Ring<F>, sigma: seq<nat>, seed: seq<MacProver<F>>)
    returns (out: HDMacProver<F>)
    requires IsRing(r) && SigmaOk(sigma, 11, |seed|)
    ensures fresh(out) && out.Valid() && out.r == r && out.Full() == X4P2(r, PickedP(r, seed, sigma))
  {
    hide IsRing, HdAdd, AddFirstP;
    var xs := MapProver(r, sigma, seed);
    ghost var cs := Fulls(r, xs);
    assert Fulls(r, xs[4..]) == cs[4..];
    var maj := MajProver2(r, xs[4..]);
    out := new HDMacProver.Clone(xs[0]);
    out.AddAssign(xs[1]);
    out.AddAssign(xs[2]);
    out.AddAssign(xs[3]);
    out.AddAssign(maj);
  }

  method ExpandX4Verifier2<F(!new, ==)>(r: Ring<F>, delta: F, sigma: seq<nat>, seed: seq<MacVerifier<F>>)
    returns (out: HDMacVerifier<F>)
    requires IsRing(r) && SigmaOk(sigma, 11, |seed|)
    ensures fresh(out) && out.Valid() && out.r == r && out.Key() == X4V2(r, delta, PickedV(r, seed, sigma))
  {
    hide IsRing, KeyAdd, AddFirstV;
    var xs := MapVerifier(r, sigma, seed);
    ghost var ks := AllKeys(r, xs);
    assert AllKeys(r, xs[4..]) == ks[4..];
    var maj := MajVerifier2(r, delta, xs[4..]);
    out := new HDMacVerifier.Clone(xs[0]);
    out.AddAssign(delta, xs[1]);
    out.AddAssign(delta, xs[2]);
    out.AddAssign(delta, xs[3]);
    out.AddAssign(delta, maj);
  }

  method ExpandX4ProverP(sigma: seq<nat>, seed: seq<MacProver<Fp>>) returns (out: HDMacProver<Fp>)
    requires SigmaOk(sigma, 11, |seed|)
    ensures fresh(out) && out.Valid() && out.r == FP && out.Full() == X4Pp(PickedP(FP, seed, sigma))
  {
    FpIsRing();
    hide IsRing, HdXor, MajPp;
    var xs := MapProver(FP, sigma, seed);
    ghost var cs := Fulls(FP, xs);
    assert Fulls(FP, xs[4..]) == cs[4..];
    var maj := MajProverP(xs[4..]);
    out := new HDMacProver.Clone(xs[0]);
    out.XorAssign(xs[1]);
    out.XorAssign(xs[2]);
    out.XorAssign(xs[3]);
    out.XorAssign(maj);
  }

  method ExpandX4VerifierP(delta: Fp, sigma: seq<nat>, seed: seq<MacVerifier<Fp>>) returns (out: HDMacVerifier<Fp>)
    requires SigmaOk(sigma, 11, |seed|)
    ensures fresh(out) && out.Valid() && out.r == FP && out.Key() == X4Vp(delta, PickedV(FP, seed, sigma))
  {
    FpIsRing();
    hide IsRing, KeyXor, MajVp;
    var xs := MapVerifier(FP, sigma, seed);
    ghost var ks := AllKeys(FP, xs);
    assert AllKeys(FP, xs[4..]) == ks[4..];
    var maj := MajVerifierP(delta, xs[4..]);
    out := new HDMacVerifier.Clone(xs[0]);
    out.XorAssign(delta, xs[1]);
    out.XorAssign(delta, xs[2]);
    out.XorAssign(delta, xs[3]);
    out.XorAssign(delta, maj);
  }
}
