/** Everything a range proof checks for a list of values, in the order of the program and for any committed chunks, and
    what a prover that commits to other chunks, or proves values out of range, can gain by it. */
module RangeLists {
  import opened Arith
  import opened Rings
  import opened PrimeField
  import opened Polynomials
  import opened Homcom
  import opened HdQuicksilver
  import opened HdValues
  import opened RangeCheck

  // ---- the checked polynomials and keys ----

  ghost function RangePolys(cs: seq<seq<Fp>>, bits: nat): (ps: seq<seq<Fp>>)
    requires Proper(cs)
    ensures |ps| == |cs| && Proper(ps)
  {
    if cs == [] then []
    else
      var n := |cs| - 1;
      RangePolys(cs[..n], bits) + [RangePoly(FP, cs[n], Pow2(bits))]
  }

  ghost function RangeKeys(delta: Fp, ks: seq<HdKey<Fp>>, bits: nat): seq<HdKey<Fp>> {
    if ks == [] then []
    else
      var n := |ks| - 1;
      RangeKeys(delta, ks[..n], bits) + [RangeKey(FP, delta, ks[n], Pow2(bits))]
  }

  ghost function Recompositions(cs: seq<seq<Fp>>, ps: seq<seq<MacProver<Fp>>>, size: nat): (rs: seq<seq<Fp>>)
    requires Proper(cs) && |cs| == |ps|
    ensures |rs| == |cs| && Proper(rs)
  {
    if cs == [] then []
    else
      var n := |cs| - 1;
      Recompositions(cs[..n], ps[..n], size) + [RecombinePoly(cs[n], ps[n], size)]
  }

  ghost function RecompositionKeys(delta: Fp, ks: seq<HdKey<Fp>>, vs: seq<seq<MacVerifier<Fp>>>,
                                   size: nat): seq<HdKey<Fp>>
    requires |ks| == |vs|
  {
    if ks == [] then []
    else
      var n := |ks| - 1;
      RecompositionKeys(delta, ks[..n], vs[..n], size) + [RecombineKey(delta, ks[n], vs[n], size)]
  }

  /** The products for the first m chunks of one value. */
  ghost function ChunkPolys(row: seq<MacProver<Fp>>, bits: nat, size: nat, m: nat): (ps: seq<seq<Fp>>)
    requires bits > 0 && size > 0 && m <= |row|
    ensures |ps| == m && Proper(ps)
  {
    if m == 0 then []
    else
      ChunkPolys(row, bits, size, m - 1)
      + [RangePoly(FP, FromMac(FP, row[m - 1]), Pow2(ChunkSize(bits, size, m - 1)))]
  }

  ghost function ChunkKeys(delta: Fp, row: seq<MacVerifier<Fp>>, bits: nat, size: nat, m: nat): seq<HdKey<Fp>>
    requires bits > 0 && size > 0 && m <= |row|
  {
    if m == 0 then []
    else
      ChunkKeys(delta, row, bits, size, m - 1)
      + [RangeKey(FP, delta, KeyFromMac(FP, row[m - 1]), Pow2(ChunkSize(bits, size, m - 1)))]
  }

  ghost function AllChunkPolys(ps: seq<seq<MacProver<Fp>>>, bits: nat, size: nat): (cs: seq<seq<Fp>>)
    requires bits > 0 && size > 0
    ensures Proper(cs)
  {
    if ps == [] then []
    else
      var n := |ps| - 1;
      AllChunkPolys(ps[..n], bits, size) + ChunkPolys(ps[n], bits, size, |ps[n]|)
  }

  ghost function AllChunkKeys(delta: Fp, vs: seq<seq<MacVerifier<Fp>>>, bits: nat, size: nat): seq<HdKey<Fp>>
    requires bits > 0 && size > 0
  {
    if vs == [] then []
    else
      var n := |vs| - 1;
      AllChunkKeys(delta, vs[..n], bits, size) + ChunkKeys(delta, vs[n], bits, size, |vs[n]|)
  }

  /** One product per value when no chunks are needed; otherwise all recompositions, then the products of all chunks. */
  ghost function CheckedPolys(cs: seq<seq<Fp>>, bits: nat, size: nat,
                              ps: seq<seq<MacProver<Fp>>>): (polys: seq<seq<Fp>>)
    requires Proper(cs) && bits > 0 && size > 0 && (size < bits ==> |ps| == |cs|)
    ensures Proper(polys)
  {
    if size >= bits then RangePolys(cs, bits) else Recompositions(cs, ps, size) + AllChunkPolys(ps, bits, size)
  }

  ghost function CheckedKeys(delta: Fp, ks: seq<HdKey<Fp>>, bits: nat, size: nat,
                             vs: seq<seq<MacVerifier<Fp>>>): seq<HdKey<Fp>>
    requires bits > 0 && size > 0 && (size < bits ==> |vs| == |ks|)
  {
    if size >= bits then RangeKeys(delta, ks, bits)
    else RecompositionKeys(delta, ks, vs, size) + AllChunkKeys(delta, vs, bits, size)
  }

  // ---- what they mean ----

  ghost predicate ProductsVanish(cs: seq<seq<Fp>>, bits: nat)
    requires Proper(cs)
  {
    forall i :: 0 <= i < |cs| ==> RangeValue(FP, Value(cs[i]), Pow2(bits)) == 0
  }

  lemma {:induction false} RangesMean(delta: Fp, cs: seq<seq<Fp>>, ks: seq<HdKey<Fp>>, bits: nat)
    requires HdAuthAll(FP, delta, cs, ks) && Proper(cs)
    ensures Mean(FP, delta, RangePolys(cs, bits), RangeKeys(delta, ks, bits), ProductsVanish(cs, bits))
  {
    hide RangePoly, RangeKey, RangeValue, Eval, Pow2, Mean;
    if cs == [] {
      MeanEmpty(FP, delta, [], [], ProductsVanish(cs, bits));
    } else {
      var n := |cs| - 1;
      RangesMean(delta, cs[..n], ks[..n], bits);
      FpIsRing();
      RangeAuth(FP, delta, cs[n], ks[n], Pow2(bits));
      var p, k := RangePoly(FP, cs[n], Pow2(bits)), RangeKey(FP, delta, ks[n], Pow2(bits));
      MeanOne(FP, delta, p, k);
      MeanAppend(FP, delta, RangePolys(cs[..n], bits), RangeKeys(delta, ks[..n], bits), ProductsVanish(cs[..n], bits),
                 [p], [k], Value(p) == 0);
      assert ProductsVanish(cs, bits) == (ProductsVanish(cs[..n], bits) && Value(p) == 0);
    }
  }

  ghost predicate RecompositionsVanish(cs: seq<seq<Fp>>, ps: seq<seq<MacProver<Fp>>>, size: nat)
    requires Proper(cs) && |cs| == |ps|
  {
    forall i :: 0 <= i < |cs| ==> Recombined(Value(cs[i]), Values(ps[i]), size) == 0
  }

  ghost predicate AuthRows(delta: Fp, ps: seq<seq<MacProver<Fp>>>, vs: seq<seq<MacVerifier<Fp>>>) {
    |ps| == |vs| && forall i :: 0 <= i < |ps| ==> AuthAll(FP, delta, ps[i], vs[i])
  }

  lemma {:induction false} RecompositionsMean(delta: Fp, cs: seq<seq<Fp>>, ks: seq<HdKey<Fp>>,
                                              ps: seq<seq<MacProver<Fp>>>, vs: seq<seq<MacVerifier<Fp>>>, size: nat)
    requires HdAuthAll(FP, delta, cs, ks) && Proper(cs) && AuthRows(delta, ps, vs) && |cs| == |ps|
    ensures Mean(FP, delta, Recompositions(cs, ps, size), RecompositionKeys(delta, ks, vs, size),
                 RecompositionsVanish(cs, ps, size))
  {
    hide RecombinePoly, RecombineKey, Recombined, Eval, Mean, AuthAll;
    if cs == [] {
      MeanEmpty(FP, delta, [], [], RecompositionsVanish(cs, ps, size));
    } else {
      var n := |cs| - 1;
      RecompositionsMean(delta, cs[..n], ks[..n], ps[..n], vs[..n], size);
      RecombineAuth(delta, cs[n], ks[n], ps[n], vs[n], size);
      var p, k := RecombinePoly(cs[n], ps[n], size), RecombineKey(delta, ks[n], vs[n], size);
      MeanOne(FP, delta, p, k);
      MeanAppend(FP, delta, Recompositions(cs[..n], ps[..n], size), RecompositionKeys(delta, ks[..n], vs[..n], size),
                 RecompositionsVanish(cs[..n], ps[..n], size), [p], [k], Value(p) == 0);
      assert RecompositionsVanish(cs, ps, size) == (RecompositionsVanish(cs[..n], ps[..n], size) && Value(p) == 0);
    }
  }

  ghost predicate ChunksVanish(xs: seq<Fp>, bits: nat, size: nat, m: nat)
    requires bits > 0 && size > 0 && m <= |xs|
  {
    forall j :: 0 <= j < m ==> RangeValue(FP, xs[j], Pow2(ChunkSize(bits, size, j))) == 0
  }

  lemma {:induction false} ChunksMean(delta: Fp, row: seq<MacProver<Fp>>, keys: seq<MacVerifier<Fp>>, bits: nat,
                                      size: nat, m: nat)
    requires AuthAll(FP, delta, row, keys) && bits > 0 && size > 0 && m <= |row|
    ensures Mean(FP, delta, ChunkPolys(row, bits, size, m), ChunkKeys(delta, keys, bits, size, m),
                 ChunksVanish(Values(row), bits, size, m))
  {
    hide RangePoly, RangeKey, RangeValue, Eval, Pow2, Mean, ChunkSize, Auth;
    if m == 0 {
      MeanEmpty(FP, delta, [], [], ChunksVanish(Values(row), bits, size, 0));
    } else {
      ChunksMean(delta, row, keys, bits, size, m - 1);
      var w := Pow2(ChunkSize(bits, size, m - 1));
      ChunkAuth(delta, row[m - 1], keys[m - 1], w);
      var p, k := RangePoly(FP, FromMac(FP, row[m - 1]), w), RangeKey(FP, delta, KeyFromMac(FP, keys[m - 1]), w);
      MeanOne(FP, delta, p, k);
      MeanAppend(FP, delta, ChunkPolys(row, bits, size, m - 1), ChunkKeys(delta, keys, bits, size, m - 1),
                 ChunksVanish(Values(row), bits, size, m - 1), [p], [k], Value(p) == 0);
      assert Values(row)[m - 1] == row[m - 1].x;
      assert ChunksVanish(Values(row), bits, size, m)
          == (ChunksVanish(Values(row), bits, size, m - 1) && Value(p) == 0);
    }
  }

  ghost predicate AllChunksVanish(ps: seq<seq<MacProver<Fp>>>, bits: nat, size: nat)
    requires bits > 0 && size > 0
  {
    forall i :: 0 <= i < |ps| ==> ChunksVanish(Values(ps[i]), bits, size, |ps[i]|)
  }

  lemma {:induction false} AllChunksMean(delta: Fp, ps: seq<seq<MacProver<Fp>>>, vs: seq<seq<MacVerifier<Fp>>>,
                                         bits: nat, size: nat)
    requires AuthRows(delta, ps, vs) && bits > 0 && size > 0
    ensures Mean(FP, delta, AllChunkPolys(ps, bits, size), AllChunkKeys(delta, vs, bits, size),
                 AllChunksVanish(ps, bits, size))
  {
    hide ChunkPolys, ChunkKeys, ChunksVanish, Mean, Auth;
    if ps == [] {
      MeanEmpty(FP, delta, [], [], AllChunksVanish(ps, bits, size));
    } else {
      var n := |ps| - 1;
      AllChunksMean(delta, ps[..n], vs[..n], bits, size);
      ChunksMean(delta, ps[n], vs[n], bits, size, |ps[n]|);
      MeanAppend(FP, delta, AllChunkPolys(ps[..n], bits, size), AllChunkKeys(delta, vs[..n], bits, size),
                 AllChunksVanish(ps[..n], bits, size), ChunkPolys(ps[n], bits, size, |ps[n]|),
                 ChunkKeys(delta, vs[n], bits, size, |ps[n]|), ChunksVanish(Values(ps[n]), bits, size, |ps[n]|));
      assert AllChunksVanish(ps, bits, size)
          == (AllChunksVanish(ps[..n], bits, size) && ChunksVanish(Values(ps[n]), bits, size, |ps[n]|));
    }
  }

  /** Any authenticated values, with any authenticated chunks of the right number. */
  ghost predicate Committed(delta: Fp, bits: nat, size: nat, cs: seq<seq<Fp>>, ks: seq<HdKey<Fp>>,
                            ps: seq<seq<MacProver<Fp>>>, vs: seq<seq<MacVerifier<Fp>>>)
    requires bits > 0 && size > 0
  {
    && HdAuthAll(FP, delta, cs, ks) && Proper(cs) && AuthRows(delta, ps, vs) && |ps| == |cs|
    && (size < bits ==> forall i :: 0 <= i < |ps| ==> |ps[i]| == NumChunks(bits, size))
  }

  ghost predicate AllVanish(cs: seq<seq<Fp>>, bits: nat, size: nat, ps: seq<seq<MacProver<Fp>>>)
    requires Proper(cs) && |cs| == |ps| && bits > 0 && size > 0
  {
    forall i :: 0 <= i < |cs| ==> ChunkedChecksVanish(Value(cs[i]), bits, size, Values(ps[i]))
  }

  /** For any committed chunks, everything that is checked vanishes exactly when it does for each value by itself. */
  lemma CheckedMean(delta: Fp, bits: nat, size: nat, cs: seq<seq<Fp>>, ks: seq<HdKey<Fp>>,
                    ps: seq<seq<MacProver<Fp>>>, vs: seq<seq<MacVerifier<Fp>>>)
    requires bits > 0 && size > 0 && Committed(delta, bits, size, cs, ks, ps, vs)
    ensures Mean(FP, delta, CheckedPolys(cs, bits, size, ps), CheckedKeys(delta, ks, bits, size, vs),
                 AllVanish(cs, bits, size, ps))
  {
    hide RangePolys, RangeKeys, Recompositions, RecompositionKeys, AllChunkPolys, AllChunkKeys, Mean, RangeValue,
         Recombined, Pow2, ChunkSize, NumChunks, Auth, Eval;
    if size >= bits {
      RangesMean(delta, cs, ks, bits);
      assert ProductsVanish(cs, bits) == AllVanish(cs, bits, size, ps);
    } else {
      RecompositionsMean(delta, cs, ks, ps, vs, size);
      AllChunksMean(delta, ps, vs, bits, size);
      MeanAppend(FP, delta, Recompositions(cs, ps, size), RecompositionKeys(delta, ks, vs, size),
                 RecompositionsVanish(cs, ps, size), AllChunkPolys(ps, bits, size), AllChunkKeys(delta, vs, bits, size),
                 AllChunksVanish(ps, bits, size));
      VanishSplits(bits, size, cs, ps);
    }
  }

  lemma VanishSplits(bits: nat, size: nat, cs: seq<seq<Fp>>, ps: seq<seq<MacProver<Fp>>>)
    requires 0 < size < bits && Proper(cs) && |cs| == |ps|
    requires forall i :: 0 <= i < |ps| ==> |ps[i]| == NumChunks(bits, size)
    ensures AllVanish(cs, bits, size, ps) == (RecompositionsVanish(cs, ps, size) && AllChunksVanish(ps, bits, size))
  {
    hide RangeValue, Recombined, Pow2, ChunkSize, NumChunks;
    forall i | 0 <= i < |cs|
      ensures ChunkedChecksVanish(Value(cs[i]), bits, size, Values(ps[i]))
         <==> Recombined(Value(cs[i]), Values(ps[i]), size) == 0 && ChunksVanish(Values(ps[i]), bits, size, |ps[i]|)
    {
      assert |Values(ps[i])| == |ps[i]|;
    }
  }

  // ---- provers that do not follow the program ----

  /** How many values are checked to be zero. */
  function CheckCount(n: nat, bits: nat, size: nat): nat
    requires bits > 0 && size > 0
  {
    if size >= bits then n else n + Times(n, NumChunks(bits, size))
  }

  lemma {:induction false} AllChunkCount(ps: seq<seq<MacProver<Fp>>>, bits: nat, size: nat)
    requires bits > 0 && size > 0 && forall i :: 0 <= i < |ps| ==> |ps[i]| == NumChunks(bits, size)
    ensures |AllChunkPolys(ps, bits, size)| == Times(|ps|, NumChunks(bits, size))
  {
    hide ChunkPolys, NumChunks, Proper;
    if ps != [] {
      var n := |ps| - 1;
      AllChunkCount(ps[..n], bits, size);
      assert |ChunkPolys(ps[n], bits, size, |ps[n]|)| == |ps[n]| == NumChunks(bits, size);
    }
  }

  /** With delta non-zero, a list with a value that is not below 2^bits is accepted for at most as many challenges as
      there are checks, whatever chunks were committed. */
  lemma FewChallengesAcceptChunks(delta: Fp, bits: nat, size: nat, cs: seq<seq<Fp>>, ks: seq<HdKey<Fp>>,
                                  ps: seq<seq<MacProver<Fp>>>, vs: seq<seq<MacVerifier<Fp>>>, mask: Fp -> seq<Fp>,
                                  chis: set<Fp>)
    requires delta != 0 && bits > 0 && size > 0 && Committed(delta, bits, size, cs, ks, ps, vs)
    requires exists i :: 0 <= i < |cs| && !InRange(Value(cs[i]), 0, Pow2(bits) - 1)
    requires Accepting(FP, delta, CheckedPolys(cs, bits, size, ps), CheckedKeys(delta, ks, bits, size, vs), mask, chis)
    ensures |chis| <= CheckCount(|cs|, bits, size)
  {
    hide RangePolys, RangeKeys, Recompositions, RecompositionKeys, AllChunkPolys, AllChunkKeys, InRange, Pow2,
         NumChunks, Eval, Auth, ChunkedChecksVanish, HdAuth, QsState, QsKey, Proof, CheckedKeys, IsPrime;
    FpIsDomain();
    CheckedMean(delta, bits, size, cs, ks, ps, vs);
    var i :| 0 <= i < |cs| && !InRange(Value(cs[i]), 0, Pow2(bits) - 1);
    ChunkedExact(Value(cs[i]), bits, size);
    assert !ChunkedChecksVanish(Value(cs[i]), bits, size, Values(ps[i]));
    FewChallengesAccept(FP, delta, CheckedPolys(cs, bits, size, ps), CheckedKeys(delta, ks, bits, size, vs), mask,
                        chis);
    if size < bits {
      AllChunkCount(ps, bits, size);
    }
  }

  // ---- signed bounds ----

  /** Both shifts of every value. */
  ghost function Shifts(cs: seq<seq<Fp>>, a: Fp, b: Fp): (ds: seq<seq<Fp>>)
    requires Proper(cs)
    ensures |ds| == 2 * |cs| && Proper(ds)
  {
    if cs == [] then []
    else
      var n := |cs| - 1;
      Shifts(cs[..n], a, b) + [HdSubCst(FP, cs[n], a), HdAddCst(FP, cs[n], b)]
  }

  ghost function ShiftKeys(delta: Fp, ks: seq<HdKey<Fp>>, a: Fp, b: Fp): (ls: seq<HdKey<Fp>>)
    ensures |ls| == 2 * |ks|
  {
    if ks == [] then []
    else
      var n := |ks| - 1;
      ShiftKeys(delta, ks[..n], a, b) + [KeySubCst(FP, delta, ks[n], a), KeyAddCst(FP, delta, ks[n], b)]
  }

  lemma {:induction false} ShiftsAt(delta: Fp, cs: seq<seq<Fp>>, ks: seq<HdKey<Fp>>, a: Fp, b: Fp, i: nat)
    requires Proper(cs) && i < |cs| == |ks|
    ensures var ds, ls := Shifts(cs, a, b), ShiftKeys(delta, ks, a, b);
            && ds[2 * i] == HdSubCst(FP, cs[i], a) && ls[2 * i] == KeySubCst(FP, delta, ks[i], a)
            && ds[2 * i + 1] == HdAddCst(FP, cs[i], b) && ls[2 * i + 1] == KeyAddCst(FP, delta, ks[i], b)
  {
    hide HdSubCst, HdAddCst, KeySubCst, KeyAddCst;
    var n := |cs| - 1;
    if i < n {
      ShiftsAt(delta, cs[..n], ks[..n], a, b, i);
    }
  }

  lemma {:induction false} ShiftsAuth(delta: Fp, cs: seq<seq<Fp>>, ks: seq<HdKey<Fp>>, a: Fp, b: Fp)
    requires HdAuthAll(FP, delta, cs, ks) && Proper(cs)
    ensures HdAuthAll(FP, delta, Shifts(cs, a, b), ShiftKeys(delta, ks, a, b))
  {
    hide HdAuth, HdSubCst, HdAddCst, KeySubCst, KeyAddCst, IsPrime, FpAdd, FpNeg, Value;
    if cs != [] {
      var n := |cs| - 1;
      ShiftsAuth(delta, cs[..n], ks[..n], a, b);
      ShiftedMean(delta, cs[n], ks[n], a, b);
    }
  }

  /** The two values that come of value i. */
  lemma ShiftsValue(delta: Fp, cs: seq<seq<Fp>>, ks: seq<HdKey<Fp>>, a: Fp, b: Fp, i: nat)
    requires HdAuthAll(FP, delta, cs, ks) && Proper(cs) && i < |cs|
    ensures Value(Shifts(cs, a, b)[2 * i]) == FP.Sub(Value(cs[i]), a)
    ensures Value(Shifts(cs, a, b)[2 * i + 1]) == FP.add(Value(cs[i]), b)
  {
    hide HdAuth, HdSubCst, HdAddCst, KeySubCst, KeyAddCst, Shifts, ShiftKeys, IsPrime, FpAdd, FpNeg, Value;
    ShiftsAt(delta, cs, ks, a, b, i);
    ShiftedMean(delta, cs[i], ks[i], a, b);
  }

  lemma ShiftedMean(delta: Fp, c: seq<Fp>, k: HdKey<Fp>, a: Fp, b: Fp)
    requires HdAuth(FP, delta, c, k)
    ensures HdAuth(FP, delta, HdSubCst(FP, c, a), KeySubCst(FP, delta, k, a))
    ensures Value(HdSubCst(FP, c, a)) == FP.Sub(Value(c), a)
    ensures HdAuth(FP, delta, HdAddCst(FP, c, b), KeyAddCst(FP, delta, k, b))
    ensures Value(HdAddCst(FP, c, b)) == FP.add(Value(c), b)
  {
    FpIsRing();
    hide Eval;
    HdSubCstAuth(FP, delta, c, a, k);
    HdAddCstAuth(FP, delta, c, b, k);
  }

  /** The range proof as a whole: with delta non-zero, a list with a value that does not represent an integer in
      [lower, upper] is accepted for at most as many challenges as there are checks, whatever chunks were committed. */
  lemma FewChallengesAcceptRange(delta: Fp, lower: int, upper: int, size: nat, cs: seq<seq<Fp>>, ks: seq<HdKey<Fp>>,
                                 ps: seq<seq<MacProver<Fp>>>, vs: seq<seq<MacVerifier<Fp>>>, mask: Fp -> seq<Fp>,
                                 chis: set<Fp>)
    requires delta != 0 && size > 0 && Prepare(lower, upper).Some? && HdAuthAll(FP, delta, cs, ks) && Proper(cs)
    requires exists i :: 0 <= i < |cs| && !InRange(Value(cs[i]), lower, upper)
    requires var (m, a, c) := Prepare(lower, upper).value;
             && m > 0 && Committed(delta, m, size, Shifts(cs, a, c), ShiftKeys(delta, ks, a, c), ps, vs)
             && Accepting(FP, delta, CheckedPolys(Shifts(cs, a, c), m, size, ps),
                          CheckedKeys(delta, ShiftKeys(delta, ks, a, c), m, size, vs), mask, chis)
    ensures var m := Prepare(lower, upper).value.0;
            m > 0 && |chis| <= CheckCount(2 * |cs|, m, size)
  {
    hide Prepare, InRange, Committed, Accepting, CheckedPolys, CheckedKeys, Shifts, ShiftKeys, Pow2, NumChunks, HdAuth,
         IsPrime, FpAdd, FpNeg, CheckCount;
    var (m, a, c) := Prepare(lower, upper).value;
    ShiftsAuth(delta, cs, ks, a, c);
    var i :| 0 <= i < |cs| && !InRange(Value(cs[i]), lower, upper);
    SignedRangeExact(Value(cs[i]), lower, upper);
    SomeShiftOut(delta, cs, ks, m, a, c, i);
    FewChallengesAcceptChunks(delta, m, size, Shifts(cs, a, c), ShiftKeys(delta, ks, a, c), ps, vs, mask, chis);
  }

  lemma SomeShiftOut(delta: Fp, cs: seq<seq<Fp>>, ks: seq<HdKey<Fp>>, m: nat, a: Fp, b: Fp, i: nat)
    requires HdAuthAll(FP, delta, cs, ks) && Proper(cs) && i < |cs|
    requires !(InRange(FP.Sub(Value(cs[i]), a), 0, Pow2(m) - 1) && InRange(FP.add(Value(cs[i]), b), 0, Pow2(m) - 1))
    ensures exists j :: 0 <= j < |Shifts(cs, a, b)| && !InRange(Value(Shifts(cs, a, b)[j]), 0, Pow2(m) - 1)
  {
    hide InRange, Pow2, IsPrime, Shifts, HdAuth, FpAdd, FpNeg;
    ShiftsValue(delta, cs, ks, a, b, i);
    var j := if InRange(FP.Sub(Value(cs[i]), a), 0, Pow2(m) - 1) then 2 * i + 1 else 2 * i;
    assert !InRange(Value(Shifts(cs, a, b)[j]), 0, Pow2(m) - 1);
  }
}
