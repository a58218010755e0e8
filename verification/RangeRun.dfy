/** Range proofs for whole lists of values, as both parties run them. */
module RangeRun {
  import opened Options
  import opened Arith
  import opened Rings
  import opened Sums
  import opened PrimeField
  import opened Polynomials
  import opened Homcom
  import opened HdQuicksilver
  import opened HdMacs
  import opened HdValues
  import opened RangeCheck
  import opened RangeLists

  /** Both states, so far: authenticated zeros of degree at most d. */
  ghost predicate QsBelow(sp: QSStateProver<Fp>, sv: QSStateVerifier<Fp>, d: nat)
    reads sp, sp.state, sv, sv.state
  {
    && sp.Valid() && sv.Valid() && sp.r == sv.r == FP && sp.chi == sv.chi && d >= 1
    && HdAuthAll(FP, sv.delta, sp.checked, sv.checked) && AllZero(FP, ClearValues(sp.checked))
    && forall i :: 0 <= i < |sp.checked| ==> 2 <= |sp.checked[i]| <= d + 1
  }

  lemma AllZeroSnoc(cs: seq<seq<Fp>>, c: seq<Fp>)
    requires (forall i :: 0 <= i < |cs| ==> cs[i] != []) && c != [] && AllZero(FP, ClearValues(cs)) && Value(c) == 0
    ensures AllZero(FP, ClearValues(cs + [c]))
  {
    assert ClearValues(cs + [c]) == ClearValues(cs) + [Value(c)];
  }

  /** The product over a range vanishes exactly on the integers below 2^bits. */
  lemma RangeZeroIff(x: Fp, bits: nat)
    ensures RangeValue(FP, x, Pow2(bits)) == 0 <==> x < Pow2(bits)
  {
    hide RangeValue, ToFp, IsPrime, Pow2;
    Pow2RangeExact(x, bits);
    Canonical(x);
    if InRange(x, 0, Pow2(bits) - 1) && Pow2(bits) <= P {
      var z :| 0 <= z <= Pow2(bits) - 1 && x == ToFp(z);
      ToFpSmall(z);
    }
    if x < Pow2(bits) {
      assert 0 <= x <= Pow2(bits) - 1 && x == ToFp(x);
    }
  }

  lemma RangeHd(delta: Fp, c: seq<Fp>, k: HdKey<Fp>, x: Fp, bits: nat)
    requires Hd(FP, delta, c, k, x, 1) && x < Pow2(bits)
    ensures Hd(FP, delta, RangePoly(FP, c, Pow2(bits)), RangeKey(FP, delta, k, Pow2(bits)), 0, Pow2(bits))
  {
    hide RangePoly, RangeKey, RangeValue, Eval, Pow2;
    FpIsRing();
    hide IsRing;
    RangeAuth(FP, delta, c, k, Pow2(bits));
    RangeZeroIff(x, bits);
    TimesIsProduct(Pow2(bits), 1);
  }

  /** One value within its range. */
  method RunPow2Check(sp: QSStateProver<Fp>, sv: QSStateVerifier<Fp>, ghost d: nat, bits: nat, c: seq<Fp>, k: HdKey<Fp>,
                      ghost x: Fp)
    requires QsBelow(sp, sv, d) && Hd(FP, sv.delta, c, k, x, 1) && bits > 0 && x < Pow2(bits) <= d
    modifies sp, sp.state, sv, sv.state
    ensures QsBelow(sp, sv, d) && sp.state == old(sp.state) && sv.state == old(sv.state)
    ensures sp.checked == old(sp.checked) + [RangePoly(FP, c, Pow2(bits))]
    ensures sv.checked == old(sv.checked) + [RangeKey(FP, sv.delta, k, Pow2(bits))]
    ensures |RangePoly(FP, c, Pow2(bits))| == Pow2(bits) + 1
  {
    hide RangePoly, RangeKey, Eval, Pow2, QsState, QsKey, IsRing, AllZero, ToFp, IsPrime, QSStateProver.Valid,
         QSStateVerifier.Valid;
    FpIsRing();
    RangeHd(sv.delta, c, k, x, bits);
    ValidChecked(sp);
    AllZeroSnoc(sp.checked, RangePoly(FP, c, Pow2(bits)));
    var mp := new HDMacProver.Load(FP, c);
    var mv := new HDMacVerifier.Load(FP, k);
    ProverCheckPow2Range(sp, bits, mp);
    VerifierCheckPow2Range(sv, bits, mv);
  }

  lemma ValidChecked(sp: QSStateProver<Fp>)
    requires sp.Valid()
    ensures forall i :: 0 <= i < |sp.checked| ==> sp.checked[i] != []
  {
  }

  lemma RecombineHd(delta: Fp, c: seq<Fp>, k: HdKey<Fp>, x: Fp, ps: seq<MacProver<Fp>>, vs: seq<MacVerifier<Fp>>,
                    bits: nat, size: nat)
    requires Hd(FP, delta, c, k, x, 1) && AuthAll(FP, delta, ps, vs) && bits > 0 && size > 0
    requires Values(ps) == HonestChunks(x, bits, size)
    ensures c != [] && Hd(FP, delta, RecombinePoly(c, ps, size), RecombineKey(delta, k, vs, size), 0, 1)
  {
    hide RecombinePoly, RecombineKey, Recombined, Eval, FromChunks, Chunks, Images, ToFp, IsPrime, NumChunks;
    RecombineAuth(delta, c, k, ps, vs, size);
    var n := NumChunks(bits, size);
    ChunksRecombine(x, size, n);
    RecombinedValue(x, Chunks(x, size, n), size);
    Canonical(x);
    ToFpSmall(0);
  }

  method RunRecombine(sp: QSStateProver<Fp>, sv: QSStateVerifier<Fp>, ghost d: nat, c: seq<Fp>, k: HdKey<Fp>,
                      ghost x: Fp, ps: seq<MacProver<Fp>>, vs: seq<MacVerifier<Fp>>, ghost bits: nat, size: nat)
    requires QsBelow(sp, sv, d) && Hd(FP, sv.delta, c, k, x, 1) && bits > 0 && size > 0
    requires AuthAll(FP, sv.delta, ps, vs) && Values(ps) == HonestChunks(x, bits, size)
    modifies sp, sp.state, sv, sv.state
    ensures QsBelow(sp, sv, d) && sp.state == old(sp.state) && sv.state == old(sv.state)
    ensures sp.checked == old(sp.checked) + [RecombinePoly(c, ps, size)]
    ensures sv.checked == old(sv.checked) + [RecombineKey(sv.delta, k, vs, size)]
  {
    hide RecombinePoly, RecombineKey, Eval, QsState, QsKey, IsRing, AllZero, ToFp, IsPrime, HonestChunks, AuthAll,
         QSStateProver.Valid, QSStateVerifier.Valid;
    FpIsRing();
    RecombineHd(sv.delta, c, k, x, ps, vs, bits, size);
    ValidChecked(sp);
    AllZeroSnoc(sp.checked, RecombinePoly(c, ps, size));
    var mp := new HDMacProver.Load(FP, c);
    var mv := new HDMacVerifier.Load(FP, k);
    ProverCheckRecombine(sp, mp, size, ps);
    VerifierCheckRecombine(sv, mv, size, vs);
  }

  ghost predicate HdList(delta: Fp, cs: seq<seq<Fp>>, ks: seq<HdKey<Fp>>, xs: seq<Fp>) {
    |cs| == |ks| == |xs| && forall i :: 0 <= i < |cs| ==> Hd(FP, delta, cs[i], ks[i], xs[i], 1)
  }

  /** The committed chunks of every value. */
  ghost predicate ChunkRows(delta: Fp, xs: seq<Fp>, bits: nat, size: nat, ps: seq<seq<MacProver<Fp>>>,
                            vs: seq<seq<MacVerifier<Fp>>>)
    requires bits > 0 && size > 0
  {
    && |ps| == |vs| == |xs|
    && forall i :: 0 <= i < |xs| ==>
       AuthAll(FP, delta, ps[i], vs[i]) && Values(ps[i]) == HonestChunks(xs[i], bits, size)
  }

  /** The clear values of a list. */
  ghost function Tops(cs: seq<seq<Fp>>): (xs: seq<Fp>)
    requires Proper(cs)
    ensures |xs| == |cs|
  {
    seq(|cs|, i requires 0 <= i < |cs| => Value(cs[i]))
  }

  /** The chunks of every value, committed with the random values from number `used` on. */
  ghost function CommittedRows(supply: nat -> seq<MacProver<Fp>>, used: nat, bits: nat, size: nat,
                               xs: seq<Fp>): (ps: seq<seq<MacProver<Fp>>>)
    requires bits > 0 && size > 0
    ensures |ps| == |xs|
  {
    var n := NumChunks(bits, size);
    seq(|xs|, i requires 0 <= i < |xs| =>
      CommitAll(HonestChunks(xs[i], bits, size), Delivered(supply, used + Times(i, n), n)))
  }

  lemma NextRow(supply: nat -> seq<MacProver<Fp>>, used: nat, bits: nat, size: nat, xs: seq<Fp>, i: nat)
    requires bits > 0 && size > 0 && i < |xs|
    ensures CommittedRows(supply, used, bits, size, xs[..i + 1])
         == CommittedRows(supply, used, bits, size, xs[..i])
            + [CommitAll(HonestChunks(xs[i], bits, size),
                         Delivered(supply, used + Times(i, NumChunks(bits, size)), NumChunks(bits, size)))]
  {
    hide HonestChunks, NumChunks, CommitAll, Delivered, Times;
  }

  lemma NoRowsCommitted(supply: nat -> seq<MacProver<Fp>>, used: nat, bits: nat, size: nat, xs: seq<Fp>)
    requires bits > 0 && size > 0
    ensures CommittedRows(supply, used, bits, size, xs[..0]) == []
  {
  }

  method RunCommitChunks(p: FComProver<Fp>, v: FComVerifier<Fp>, cs: seq<seq<Fp>>, ghost ks: seq<HdKey<Fp>>,
                         ghost xs: seq<Fp>, bits: nat, size: nat)
    returns (ps: seq<seq<MacProver<Fp>>>, vs: seq<seq<MacVerifier<Fp>>>)
    requires Linked(p, v) && p.r == FP && HdList(v.delta, cs, ks, xs) && bits > 0 && size > 0
    modifies p, v
    ensures Linked(p, v) && ChunkRows(v.delta, xs, bits, size, ps, vs)
    ensures ps == CommittedRows(p.supply, old(p.used), bits, size, xs)
    ensures var n := Times(|cs|, NumChunks(bits, size)); p.used == old(p.used) + n && v.used == old(v.used) + n
  {
    hide Linked, Hd, HonestChunks, NumChunks, Auth, IsPrime, CommittedRows, CommitAll, Delivered, Times;
    ps, vs := [], [];
    NoRowsCommitted(p.supply, p.used, bits, size, xs);
    NoTimes(NumChunks(bits, size));
    for i := 0 to |cs|
      invariant ps == CommittedRows(p.supply, old(p.used), bits, size, xs[..i])
      invariant Linked(p, v) && ChunkRows(v.delta, xs[..i], bits, size, ps, vs)
      invariant var n := Times(i, NumChunks(bits, size)); p.used == old(p.used) + n && v.used == old(v.used) + n
    {
      HdTop(v.delta, cs[i], ks[i], xs[i]);
      var x := cs[i][|cs[i]| - 1];
      HonestLength(x, bits, size);
      NextRow(p.supply, old(p.used), bits, size, xs, i);
      NextTimes(i, NumChunks(bits, size));
      var row, keys := RunInput(p, v, HonestChunks(x, bits, size));
      ps, vs := ps + [row], vs + [keys];
    }
    assert xs[..|cs|] == xs;
  }

  lemma HdTop(delta: Fp, c: seq<Fp>, k: HdKey<Fp>, x: Fp)
    requires Hd(FP, delta, c, k, x, 1)
    ensures |c| == 2 && c[1] == x
  {
  }

  lemma HonestLength(x: nat, bits: nat, size: nat)
    requires bits > 0 && size > 0
    ensures |HonestChunks(x, bits, size)| == NumChunks(bits, size)
  {
  }

  // ---- the checks of a list ----

  ghost predicate AllBelow(xs: seq<Fp>, bits: nat) {
    forall i :: 0 <= i < |xs| ==> xs[i] < Pow2(bits)
  }

  /** Whether some check so far has degree exactly d. */
  ghost predicate Reached(cs: seq<seq<Fp>>, d: nat) {
    exists i :: 0 <= i < |cs| && |cs[i]| == d + 1
  }

  lemma StillReached(cs: seq<seq<Fp>>, c: seq<Fp>, d: nat)
    ensures Reached(cs, d) || |c| == d + 1 ==> Reached(cs + [c], d)
  {
    var cs' := cs + [c];
    if i :| 0 <= i < |cs| && |cs[i]| == d + 1 {
      assert |cs'[i]| == d + 1;
    }
    if |c| == d + 1 {
      assert |cs'[|cs|]| == d + 1;
    }
  }

  lemma NonEmptyList(delta: Fp, cs: seq<seq<Fp>>, ks: seq<HdKey<Fp>>, xs: seq<Fp>)
    requires HdList(delta, cs, ks, xs)
    ensures Proper(cs)
  {
  }

  /** The check of one value that may be too large: then the prover stops. */
  method RunRangeOf(sp: QSStateProver<Fp>, sv: QSStateVerifier<Fp>, ghost d: nat, bits: nat, c: seq<Fp>, k: HdKey<Fp>,
                    ghost x: Fp) returns (ok: bool)
    requires QsBelow(sp, sv, d) && Hd(FP, sv.delta, c, k, x, 1) && bits > 0 && Pow2(bits) <= d
    modifies sp, sp.state, sv, sv.state
    ensures sp.state == old(sp.state) && sv.state == old(sv.state)
    ensures ok <==> x < Pow2(bits)
    ensures ok ==> QsBelow(sp, sv, d) && (Reached(old(sp.checked), d) || Pow2(bits) == d ==> Reached(sp.checked, d))
    ensures c != []
    ensures ok ==> sp.checked == old(sp.checked) + [RangePoly(FP, c, Pow2(bits))]
    ensures ok ==> sv.checked == old(sv.checked) + [RangeKey(FP, sv.delta, k, Pow2(bits))]
  {
    hide QsBelow, Hd, Pow2, IsPrime, RangePoly, RangeKey, Reached;
    HdTop(sv.delta, c, k, x);
    ok := c[1] < Pow2(bits);
    if ok {
      RunPow2Check(sp, sv, d, bits, c, k, x);
      StillReached(old(sp.checked), RangePoly(FP, c, Pow2(bits)), d);
    }
  }

  method RunRangesOf(sp: QSStateProver<Fp>, sv: QSStateVerifier<Fp>, bits: nat, cs: seq<seq<Fp>>, ks: seq<HdKey<Fp>>,
                     ghost xs: seq<Fp>) returns (ok: bool)
    requires QsBelow(sp, sv, Pow2(bits)) && HdList(sv.delta, cs, ks, xs) && bits > 0 && sp.checked == []
    requires sv.checked == []
    modifies sp, sp.state, sv, sv.state
    ensures sp.state == old(sp.state) && sv.state == old(sv.state)
    ensures ok <==> AllBelow(xs, bits)
    ensures ok ==> QsBelow(sp, sv, Pow2(bits)) && (cs != [] ==> Reached(sp.checked, Pow2(bits)))
    ensures Proper(cs) && (ok ==> sp.checked == RangePolys(cs, bits) && sv.checked == RangeKeys(sv.delta, ks, bits))
  {
    hide QsBelow, Hd, Pow2, IsPrime, Reached, RangePoly, RangeKey;
    NonEmptyList(sv.delta, cs, ks, xs);
    ok := true;
    for i := 0 to |cs|
      invariant sp.state == old(sp.state) && sv.state == old(sv.state) && QsBelow(sp, sv, Pow2(bits)) && ok
      invariant (forall j :: 0 <= j < i ==> xs[j] < Pow2(bits)) && (i > 0 ==> Reached(sp.checked, Pow2(bits)))
      invariant sp.checked == RangePolys(cs[..i], bits) && sv.checked == RangeKeys(sv.delta, ks[..i], bits)
    {
      ok := RunRangeOf(sp, sv, Pow2(bits), bits, cs[i], ks[i], xs[i]);
      if !ok {
        return;
      }
      assert cs[..i + 1][..i] == cs[..i] && ks[..i + 1][..i] == ks[..i];
    }
    assert cs[..|cs|] == cs && ks[..|cs|] == ks;
  }

  /** Chunks of a value fit their sizes exactly when the value fits all of them. */
  lemma ChunksDecide(x: nat, bits: nat, size: nat)
    requires 0 < size < bits
    ensures (forall j :: 0 <= j < NumChunks(bits, size) ==>
        Chunks(x, size, NumChunks(bits, size))[j] < Pow2(ChunkSize(bits, size, j)))
       <==> x < Pow2(bits)
  {
    hide ChunkSize, NumChunks, Chunks, FromChunks, Pow2;
    var n := NumChunks(bits, size);
    var cs := Chunks(x, size, n);
    if x < Pow2(bits) {
      ChunksFit(x, bits, size);
    }
    if forall j :: 0 <= j < n ==> cs[j] < Pow2(ChunkSize(bits, size, j)) {
      ChunksRecombine(x, size, n);
      assert cs[..n] == cs;
      FromChunksBound(cs, bits, size, n);
    }
  }

  /** Below the modulus a chunk is its own image. */
  lemma ChunkImage(x: Fp, bits: nat, size: nat, j: nat)
    requires bits > 0 && size > 0 && j < NumChunks(bits, size)
    ensures HonestChunks(x, bits, size)[j] == Chunks(x, size, NumChunks(bits, size))[j]
  {
    var n := NumChunks(bits, size);
    ChunkSmaller(x, size, n, j);
    ToFpSmall(ChunkAt(x, size, n, j));
  }

  lemma ChunkSmaller(x: nat, size: nat, n: nat, j: nat)
    ensures ChunkAt(x, size, n, j) <= x
  {
    QuotSmaller(x, Pow2(Times(j, size)));
    RemSmaller(Quot(x, Pow2(Times(j, size))), Pow2(size));
  }

  /** Chunk j of a value. */
  method RunChunkRange(sp: QSStateProver<Fp>, sv: QSStateVerifier<Fp>, bits: nat, size: nat, j: nat, m: MacProver<Fp>,
                       l: MacVerifier<Fp>)
    returns (ok: bool)
    requires QsBelow(sp, sv, Pow2(size)) && 0 < size < bits && j < NumChunks(bits, size) && Auth(FP, sv.delta, m, l)
    modifies sp, sp.state, sv, sv.state
    ensures sp.state == old(sp.state) && sv.state == old(sv.state)
    ensures ok <==> m.x < Pow2(ChunkSize(bits, size, j))
    ensures ok ==> QsBelow(sp, sv, Pow2(size))
    ensures ok && (j == 0 || Reached(old(sp.checked), Pow2(size))) ==> Reached(sp.checked, Pow2(size))
    ensures ok ==> sp.checked == old(sp.checked) + [RangePoly(FP, FromMac(FP, m), Pow2(ChunkSize(bits, size, j)))]
    ensures ok ==>
      sv.checked == old(sv.checked) + [RangeKey(FP, sv.delta, KeyFromMac(FP, l), Pow2(ChunkSize(bits, size, j)))]
  {
    hide QsBelow, Hd, Pow2, IsPrime, Reached, Auth, NumChunks, ChunkSize, RangePoly, RangeKey;
    ChunkSizes(bits, size, j);
    Pow2Monotone(ChunkSize(bits, size, j), size);
    FromMacHd(sv.delta, m, l);
    ok := RunRangeOf(sp, sv, Pow2(size), ChunkSize(bits, size, j), FromMac(FP, m), KeyFromMac(FP, l), m.x);
  }

  /** All chunks of one value. */
  method RunChunkRanges(sp: QSStateProver<Fp>, sv: QSStateVerifier<Fp>, bits: nat, size: nat, ghost x: Fp,
                        ps: seq<MacProver<Fp>>, vs: seq<MacVerifier<Fp>>)
    returns (ok: bool)
    requires QsBelow(sp, sv, Pow2(size)) && 0 < size < bits && AuthAll(FP, sv.delta, ps, vs)
    requires Values(ps) == HonestChunks(x, bits, size)
    modifies sp, sp.state, sv, sv.state
    ensures sp.state == old(sp.state) && sv.state == old(sv.state)
    ensures ok <==> x < Pow2(bits)
    ensures ok ==> QsBelow(sp, sv, Pow2(size)) && Reached(sp.checked, Pow2(size))
    ensures ok ==> sp.checked == old(sp.checked) + ChunkPolys(ps, bits, size, |ps|)
    ensures |vs| == |ps| && (ok ==> sv.checked == old(sv.checked) + ChunkKeys(sv.delta, vs, bits, size, |ps|))
  {
    hide QsBelow, Pow2, IsPrime, Reached, Auth, HonestChunks, NumChunks, ChunkSize, RangePoly, RangeKey;
    var n := NumChunks(bits, size);
    assert |ps| == |Values(ps)|;
    HonestLength(x, bits, size);
    ManyChunks(bits, size);
    HonestDecide(x, bits, size, Values(ps));
    ok := true;
    for j := 0 to n
      invariant sp.state == old(sp.state) && sv.state == old(sv.state) && QsBelow(sp, sv, Pow2(size)) && ok
      invariant forall i :: 0 <= i < j ==> Values(ps)[i] < Pow2(ChunkSize(bits, size, i))
      invariant j > 0 ==> Reached(sp.checked, Pow2(size))
      invariant sp.checked == old(sp.checked) + ChunkPolys(ps, bits, size, j)
      invariant sv.checked == old(sv.checked) + ChunkKeys(sv.delta, vs, bits, size, j)
    {
      assert Values(ps)[j] == ps[j].x;
      ok := RunChunkRange(sp, sv, bits, size, j, ps[j], vs[j]);
      if !ok {
        return;
      }
    }
  }

  /** Honest chunks, as elements of the field, fit their sizes exactly when the value does. */
  lemma HonestDecide(x: Fp, bits: nat, size: nat, xs: seq<Fp>)
    requires 0 < size < bits && xs == HonestChunks(x, bits, size)
    ensures (forall j :: 0 <= j < |xs| ==> xs[j] < Pow2(ChunkSize(bits, size, j))) <==> x < Pow2(bits)
  {
    hide HonestChunks, Chunks, NumChunks, ChunkSize, Pow2, IsPrime;
    HonestLength(x, bits, size);
    ChunksDecide(x, bits, size);
    forall j | 0 <= j < |xs| ensures xs[j] == Chunks(x, size, NumChunks(bits, size))[j] {
      ChunkImage(x, bits, size, j);
    }
  }

  lemma FromMacHd(delta: Fp, m: MacProver<Fp>, l: MacVerifier<Fp>)
    requires Auth(FP, delta, m, l)
    ensures Hd(FP, delta, FromMac(FP, m), KeyFromMac(FP, l), m.x, 1)
  {
    FpIsRing();
    FromMacAuth(FP, delta, m, l);
  }

  lemma ManyChunks(bits: nat, size: nat)
    requires 0 < size < bits
    ensures NumChunks(bits, size) >= 2
  {
    assert Times(1, size) == size;
    NumChunksBounds(bits, size);
  }

  lemma ChunkSizes(bits: nat, size: nat, j: nat)
    requires 0 < size < bits && j < NumChunks(bits, size)
    ensures 0 < ChunkSize(bits, size, j) <= size
    ensures j == 0 ==> ChunkSize(bits, size, j) == size
  {
    ManyChunks(bits, size);
    LastChunk(bits, size);
  }

  function ChecksDegree(bits: nat, size: nat): nat {
    if size >= bits then Pow2(bits) else Pow2(size)
  }

  /** What the checks of n values take: the chunks, and the mask for the largest product. */
  function RangeVoles(n: nat, bits: nat, size: nat, basis: nat): nat
    requires bits > 0 && size > 0
  {
    (if size >= bits then 0 else Times(n, NumChunks(bits, size))) + Times(ChecksDegree(bits, size) - 1, basis)
  }

  /** `check_pow2_range_in_chunks` on a list: an honest run is accepted exactly when every value is below 2^bits. */
  method RunPow2Ranges(p: FComProver<Fp>, v: FComVerifier<Fp>, chi: Fp, bits: nat, size: nat, cs: seq<seq<Fp>>,
                       ks: seq<HdKey<Fp>>, ghost xs: seq<Fp>)
    returns (ok: bool, proof: seq<Fp>)
    requires Linked(p, v) && p.r == FP && HdList(v.delta, cs, ks, xs) && bits > 0 && size > 0
    modifies p, v
    ensures Linked(p, v)
    ensures ok <==> AllBelow(xs, bits)
    ensures Proper(cs) && (ok ==> proof == RangeMessage(p.basis, p.supply, old(p.used), chi, bits, size, cs))
    ensures ok && cs != [] ==>
      && p.used == old(p.used) + RangeVoles(|cs|, bits, size, |p.basis|)
      && v.used == old(v.used) + RangeVoles(|cs|, bits, size, |p.basis|)
  {
    hide Linked, Pow2, IsPrime, NumChunks, ChunkRows, QsBelow, Reached, AllBelow, IsRing, ChecksDegree, CheckedPolys,
         CheckedKeys, RangePolys, RangeKeys, Times, CommittedRows, DeliveredProof, RangeMessage;
    ListLengths(v.delta, cs, ks, xs);
    TopsAre(v.delta, cs, ks, xs);
    proof := [];
    ghost var start := p.used;
    hide HdList;
    LinkedField(p, v);
    var ps, vs := [], [];
    if size < bits {
      ps, vs := RunCommitChunks(p, v, cs, ks, xs, bits, size);
    }
    DegreeIs(bits, size);
    var sp, sv := RunNewRange(v.delta, chi, ChecksDegree(bits, size));
    if size >= bits {
      ok := RunRangesOf(sp, sv, bits, cs, ks, xs);
    } else {
      ok := RunChunked(sp, sv, bits, size, cs, ks, xs, ps, vs);
    }
    if ok {
      ghost var checked, used := sp.checked, p.used;
      proof := RunRangeFinish(sp, sv, ChecksDegree(bits, size), p, v, cs != []);
      MessageIs(p.basis, p.supply, start, used, chi, bits, size, cs, ps, checked, proof);
    }
  }

  /** What the prover sends at the end: the message about exactly the listed checks, for chunks committed before. */
  ghost function RangeMessage(basis: seq<Fp>, supply: nat -> seq<MacProver<Fp>>, used: nat, chi: Fp, bits: nat,
                              size: nat, cs: seq<seq<Fp>>): seq<Fp>
    requires Proper(cs) && bits > 0 && size > 0
  {
    if size >= bits then DeliveredProof(FP, basis, supply, used, chi, RangePolys(cs, bits))
    else
      var ps := CommittedRows(supply, used, bits, size, Tops(cs));
      DeliveredProof(FP, basis, supply, used + Times(|cs|, NumChunks(bits, size)), chi,
                     CheckedPolys(cs, bits, size, ps))
  }

  lemma MessageIs(basis: seq<Fp>, supply: nat -> seq<MacProver<Fp>>, start: nat, used: nat, chi: Fp, bits: nat,
                  size: nat, cs: seq<seq<Fp>>, ps: seq<seq<MacProver<Fp>>>, checked: seq<seq<Fp>>, proof: seq<Fp>)
    requires Proper(cs) && bits > 0 && size > 0 && proof == DeliveredProof(FP, basis, supply, used, chi, checked)
    requires size >= bits ==> used == start && checked == RangePolys(cs, bits)
    requires size < bits ==> |ps| == |cs|
    requires size < bits ==>
      && used == start + Times(|cs|, NumChunks(bits, size))
      && ps == CommittedRows(supply, start, bits, size, Tops(cs)) && checked == CheckedPolys(cs, bits, size, ps)
    ensures proof == RangeMessage(basis, supply, start, chi, bits, size, cs)
  {
    hide CheckedPolys, RangePolys, NumChunks, Times, DeliveredProof, Tops;
  }

  lemma TopsAre(delta: Fp, cs: seq<seq<Fp>>, ks: seq<HdKey<Fp>>, xs: seq<Fp>)
    requires HdList(delta, cs, ks, xs)
    ensures Proper(cs) && Tops(cs) == xs
  {
    hide Hd;
    forall i | 0 <= i < |cs| ensures cs[i] != [] && Value(cs[i]) == xs[i] {
      HdTop(delta, cs[i], ks[i], xs[i]);
    }
  }

  lemma ListLengths(delta: Fp, cs: seq<seq<Fp>>, ks: seq<HdKey<Fp>>, xs: seq<Fp>)
    requires HdList(delta, cs, ks, xs)
    ensures |cs| == |ks| == |xs|
  {
  }

  lemma DegreeIs(bits: nat, size: nat)
    ensures ChecksDegree(bits, size) >= 1 && ChecksDegree(bits, size) == if size >= bits then Pow2(bits) else Pow2(size)
  {
  }

  lemma LinkedField(p: FComProver<Fp>, v: FComVerifier<Fp>)
    requires Linked(p, v)
    ensures p.r == v.r && IsRing(p.r)
  {
  }

  method RunNewRange(delta: Fp, chi: Fp, ghost d: nat) returns (sp: QSStateProver<Fp>, sv: QSStateVerifier<Fp>)
    requires d >= 1
    ensures fresh(sp) && fresh(sp.state) && fresh(sv) && fresh(sv.state)
    ensures QsBelow(sp, sv, d) && sp.checked == [] && sv.checked == [] && sv.delta == delta
    ensures sp.chi == sv.chi == chi
  {
    hide IsRing;
    FpIsRing();
    sp := new QSStateProver(FP, chi);
    sv := new QSStateVerifier(FP, delta, chi);
  }

  /** The recompositions of all values. */
  method RunRecompositions(sp: QSStateProver<Fp>, sv: QSStateVerifier<Fp>, bits: nat, size: nat, cs: seq<seq<Fp>>,
                           ks: seq<HdKey<Fp>>, ghost xs: seq<Fp>, ps: seq<seq<MacProver<Fp>>>,
                           vs: seq<seq<MacVerifier<Fp>>>)
    requires 0 < size < bits && QsBelow(sp, sv, Pow2(size)) && HdList(sv.delta, cs, ks, xs)
    requires ChunkRows(sv.delta, xs, bits, size, ps, vs)
    requires sp.checked == [] && sv.checked == []
    modifies sp, sp.state, sv, sv.state
    ensures sp.state == old(sp.state) && sv.state == old(sv.state) && QsBelow(sp, sv, Pow2(size)) && Proper(cs)
    ensures sp.checked == Recompositions(cs, ps, size) && sv.checked == RecompositionKeys(sv.delta, ks, vs, size)
  {
    hide Hd, Pow2, IsPrime, NumChunks, AuthAll, HonestChunks, QsBelow, RecombinePoly, RecombineKey;
    NonEmptyList(sv.delta, cs, ks, xs);
    for i := 0 to |cs|
      invariant sp.state == old(sp.state) && sv.state == old(sv.state) && QsBelow(sp, sv, Pow2(size))
      invariant sp.checked == Recompositions(cs[..i], ps[..i], size)
      invariant sv.checked == RecompositionKeys(sv.delta, ks[..i], vs[..i], size)
    {
      RunRecombine(sp, sv, Pow2(size), cs[i], ks[i], xs[i], ps[i], vs[i], bits, size);
      assert cs[..i + 1][..i] == cs[..i] && ks[..i + 1][..i] == ks[..i] && ps[..i + 1][..i] == ps[..i]
          && vs[..i + 1][..i] == vs[..i];
    }
    assert cs[..|cs|] == cs && ks[..|cs|] == ks && ps[..|cs|] == ps && vs[..|cs|] == vs;
  }

  /** The ranges of the chunks of one value, after the checks `before` and those of the rows up to it. */
  method RunRowRanges(sp: QSStateProver<Fp>, sv: QSStateVerifier<Fp>, bits: nat, size: nat, ghost xs: seq<Fp>,
                      ps: seq<seq<MacProver<Fp>>>, vs: seq<seq<MacVerifier<Fp>>>, i: nat,
                      ghost before: seq<seq<Fp>>, ghost keys: seq<HdKey<Fp>>) returns (ok: bool)
    requires 0 < size < bits && QsBelow(sp, sv, Pow2(size)) && ChunkRows(sv.delta, xs, bits, size, ps, vs)
    requires i < |ps| == |vs| == |xs|
    requires sp.checked == before + AllChunkPolys(ps[..i], bits, size)
    requires sv.checked == keys + AllChunkKeys(sv.delta, vs[..i], bits, size)
    modifies sp, sp.state, sv, sv.state
    ensures sp.state == old(sp.state) && sv.state == old(sv.state)
    ensures ok <==> xs[i] < Pow2(bits)
    ensures ok ==> QsBelow(sp, sv, Pow2(size)) && Reached(sp.checked, Pow2(size))
    ensures ok ==> sp.checked == before + AllChunkPolys(ps[..i + 1], bits, size)
    ensures ok ==> sv.checked == keys + AllChunkKeys(sv.delta, vs[..i + 1], bits, size)
  {
    hide Pow2, IsPrime, QsBelow, Reached, AllChunkPolys, AllChunkKeys, ChunkRows, ChunkPolys, ChunkKeys;
    RowAt(sv.delta, xs, bits, size, ps, vs, i);
    MoreChunks(sv.delta, bits, size, ps, vs, i);
    ok := RunChunkRanges(sp, sv, bits, size, xs[i], ps[i], vs[i]);
  }

  /** The ranges of all chunks. */
  method RunAllChunkRanges(sp: QSStateProver<Fp>, sv: QSStateVerifier<Fp>, bits: nat, size: nat, ghost xs: seq<Fp>,
                           ps: seq<seq<MacProver<Fp>>>, vs: seq<seq<MacVerifier<Fp>>>) returns (ok: bool)
    requires 0 < size < bits && QsBelow(sp, sv, Pow2(size)) && ChunkRows(sv.delta, xs, bits, size, ps, vs)
    modifies sp, sp.state, sv, sv.state
    ensures sp.state == old(sp.state) && sv.state == old(sv.state)
    ensures ok <==> AllBelow(xs, bits)
    ensures ok ==> QsBelow(sp, sv, Pow2(size)) && (xs != [] ==> Reached(sp.checked, Pow2(size)))
    ensures ok ==> sp.checked == old(sp.checked) + AllChunkPolys(ps, bits, size)
    ensures ok ==> sv.checked == old(sv.checked) + AllChunkKeys(sv.delta, vs, bits, size)
  {
    hide Pow2, IsPrime, QsBelow, Reached, AllChunkPolys, AllChunkKeys, ChunkRows, AllBelow;
    RowCount(sv.delta, xs, bits, size, ps, vs);
    NoChunks(sv.delta, bits, size, ps[..0], vs[..0]);
    NoneBelow(xs[..0], bits);
    ok := true;
    for i := 0 to |ps|
      invariant sp.state == old(sp.state) && sv.state == old(sv.state) && QsBelow(sp, sv, Pow2(size)) && ok
      invariant AllBelow(xs[..i], bits) && (i > 0 ==> Reached(sp.checked, Pow2(size)))
      invariant sp.checked == old(sp.checked) + AllChunkPolys(ps[..i], bits, size)
      invariant sv.checked == old(sv.checked) + AllChunkKeys(sv.delta, vs[..i], bits, size)
    {
      MoreBelow(xs, bits, i);
      ok := RunRowRanges(sp, sv, bits, size, xs, ps, vs, i, old(sp.checked), old(sv.checked));
      if !ok {
        return;
      }
    }
    assert ps[..|ps|] == ps && vs[..|ps|] == vs && xs[..|ps|] == xs;
  }

  lemma NoneBelow(xs: seq<Fp>, bits: nat)
    requires xs == []
    ensures AllBelow(xs, bits)
  {
  }

  lemma MoreBelow(xs: seq<Fp>, bits: nat, i: nat)
    requires i < |xs| && AllBelow(xs[..i], bits)
    ensures AllBelow(xs[..i + 1], bits) <==> xs[i] < Pow2(bits)
    ensures AllBelow(xs, bits) ==> xs[i] < Pow2(bits)
  {
    hide Pow2;
    assert forall j :: 0 <= j < i ==> xs[j] == xs[..i][j];
    assert forall j :: 0 <= j < i + 1 ==> xs[..i + 1][j] == xs[j];
    assert xs[..i + 1][i] == xs[i];
  }

  lemma RowCount(delta: Fp, xs: seq<Fp>, bits: nat, size: nat, ps: seq<seq<MacProver<Fp>>>,
                 vs: seq<seq<MacVerifier<Fp>>>)
    requires bits > 0 && size > 0 && ChunkRows(delta, xs, bits, size, ps, vs)
    ensures |xs| == |ps| == |vs|
  {
  }

  lemma RowAt(delta: Fp, xs: seq<Fp>, bits: nat, size: nat, ps: seq<seq<MacProver<Fp>>>, vs: seq<seq<MacVerifier<Fp>>>,
              i: nat)
    requires bits > 0 && size > 0 && ChunkRows(delta, xs, bits, size, ps, vs) && i < |ps|
    ensures AuthAll(FP, delta, ps[i], vs[i]) && Values(ps[i]) == HonestChunks(xs[i], bits, size)
  {
  }

  lemma NoChunks(delta: Fp, bits: nat, size: nat, ps: seq<seq<MacProver<Fp>>>, vs: seq<seq<MacVerifier<Fp>>>)
    requires bits > 0 && size > 0 && ps == [] && vs == []
    ensures AllChunkPolys(ps, bits, size) == [] && AllChunkKeys(delta, vs, bits, size) == []
  {
  }

  lemma MoreChunks(delta: Fp, bits: nat, size: nat, ps: seq<seq<MacProver<Fp>>>, vs: seq<seq<MacVerifier<Fp>>>, i: nat)
    requires bits > 0 && size > 0 && i < |ps| == |vs| && |ps[i]| == |vs[i]|
    ensures AllChunkPolys(ps[..i + 1], bits, size)
         == AllChunkPolys(ps[..i], bits, size) + ChunkPolys(ps[i], bits, size, |ps[i]|)
    ensures AllChunkKeys(delta, vs[..i + 1], bits, size)
         == AllChunkKeys(delta, vs[..i], bits, size) + ChunkKeys(delta, vs[i], bits, size, |ps[i]|)
  {
    hide ChunkPolys, ChunkKeys;
    assert ps[..i + 1][..i] == ps[..i] && vs[..i + 1][..i] == vs[..i];
  }

  /** With chunks: exactly the checks listed by `CheckedPolys` and `CheckedKeys`. */
  method RunChunked(sp: QSStateProver<Fp>, sv: QSStateVerifier<Fp>, bits: nat, size: nat, cs: seq<seq<Fp>>,
                    ks: seq<HdKey<Fp>>, ghost xs: seq<Fp>, ps: seq<seq<MacProver<Fp>>>,
                    vs: seq<seq<MacVerifier<Fp>>>) returns (ok: bool)
    requires 0 < size < bits && QsBelow(sp, sv, Pow2(size)) && HdList(sv.delta, cs, ks, xs)
    requires ChunkRows(sv.delta, xs, bits, size, ps, vs)
    requires sp.checked == [] && sv.checked == []
    modifies sp, sp.state, sv, sv.state
    ensures sp.state == old(sp.state) && sv.state == old(sv.state)
    ensures ok <==> AllBelow(xs, bits)
    ensures ok ==> QsBelow(sp, sv, Pow2(size)) && (cs != [] ==> Reached(sp.checked, Pow2(size)))
    ensures Proper(cs)
    ensures ok ==>
      sp.checked == CheckedPolys(cs, bits, size, ps) && sv.checked == CheckedKeys(sv.delta, ks, bits, size, vs)
  {
    hide Hd, Pow2, IsPrime, NumChunks, AuthAll, HonestChunks, QsBelow, Reached, Recompositions, RecompositionKeys,
         AllChunkPolys, AllChunkKeys, AllBelow;
    RunRecompositions(sp, sv, bits, size, cs, ks, xs, ps, vs);
    ok := RunAllChunkRanges(sp, sv, bits, size, xs, ps, vs);
  }

  method RunRangeFinish(sp: QSStateProver<Fp>, sv: QSStateVerifier<Fp>, ghost d: nat, p: FComProver<Fp>,
                        v: FComVerifier<Fp>, ghost some: bool) returns (proof: seq<Fp>)
    requires QsBelow(sp, sv, d) && Linked(p, v) && p.r == FP && sv.delta == v.delta && (some ==> Reached(sp.checked, d))
    modifies sp, sv, p, v
    ensures Linked(p, v) && proof == DeliveredProof(FP, p.basis, p.supply, old(p.used), sp.chi, old(sp.checked))
    ensures some ==> p.used == old(p.used) + Times(d - 1, |p.basis|) && v.used == old(v.used) + Times(d - 1, |p.basis|)
  {
    hide QsState, QsKey, Eval, Linked, IsRing;
    if some {
      RangeDegree(sp, d);
    }
    var ok;
    ok, proof := RunFinalize(sp, sv, p, v);
  }

  lemma RangeDegree(sp: QSStateProver<Fp>, d: nat)
    requires sp.Valid() && d >= 1 && Reached(sp.checked, d)
    requires forall i :: 0 <= i < |sp.checked| ==> 2 <= |sp.checked[i]| <= d + 1
    ensures sp.state.qsDegree == d
  {
    QsStateDegree(sp.r, sp.chi, sp.checked, d);
    assert |sp.state.Full()| == sp.state.qsDegree + 1;
  }

  // ---- signed bounds ----

  ghost predicate AllInRange(xs: seq<Fp>, lower: int, upper: int) {
    forall i :: 0 <= i < |xs| ==> InRange(xs[i], lower, upper)
  }

  /** Both shifts of every value. */
  method RunShift(delta: Fp, cs: seq<seq<Fp>>, ks: seq<HdKey<Fp>>, ghost xs: seq<Fp>, a: Fp, b: Fp)
    returns (ds: seq<seq<Fp>>, ls: seq<HdKey<Fp>>, ghost ys: seq<Fp>)
    requires HdList(delta, cs, ks, xs)
    ensures HdList(delta, ds, ls, ys) && |ds| == 2 * |cs|
    ensures Proper(cs) && ds == Shifts(cs, a, b) && ls == ShiftKeys(delta, ks, a, b)
    ensures forall i :: 0 <= i < |xs| ==> ys[2 * i] == FP.Sub(xs[i], a) && ys[2 * i + 1] == FP.add(xs[i], b)
  {
    hide Hd, HdSubCst, HdAddCst, KeySubCst, KeyAddCst, IsRing, Shifts, ShiftKeys, FpAdd, FpNeg, IsPrime;
    FpIsRing();
    NonEmptyList(delta, cs, ks, xs);
    ds, ls, ys := [], [], [];
    NoShifts(delta, cs[..0], ks[..0], a, b);
    for i := 0 to |cs|
      invariant HdList(delta, ds, ls, ys) && |ds| == 2 * i
      invariant ds == Shifts(cs[..i], a, b) && ls == ShiftKeys(delta, ks[..i], a, b)
      invariant forall j :: 0 <= j < i ==> ys[2 * j] == FP.Sub(xs[j], a) && ys[2 * j + 1] == FP.add(xs[j], b)
    {
      HdTop(delta, cs[i], ks[i], xs[i]);
      SubCstHd(FP, delta, cs[i], ks[i], xs[i], 1, a);
      AddCstHd(FP, delta, cs[i], ks[i], xs[i], 1, b);
      MoreShifts(delta, cs, ks, a, b, i);
      ds := ds + [HdSubCst(FP, cs[i], a), HdAddCst(FP, cs[i], b)];
      ls := ls + [KeySubCst(FP, delta, ks[i], a), KeyAddCst(FP, delta, ks[i], b)];
      ys := ys + [FP.Sub(xs[i], a), FP.add(xs[i], b)];
    }
    assert cs[..|cs|] == cs && ks[..|cs|] == ks;
  }

  lemma NoShifts(delta: Fp, cs: seq<seq<Fp>>, ks: seq<HdKey<Fp>>, a: Fp, b: Fp)
    requires cs == [] && ks == []
    ensures Shifts(cs, a, b) == [] && ShiftKeys(delta, ks, a, b) == []
  {
  }

  lemma MoreShifts(delta: Fp, cs: seq<seq<Fp>>, ks: seq<HdKey<Fp>>, a: Fp, b: Fp, i: nat)
    requires Proper(cs) && i < |cs| == |ks|
    ensures Shifts(cs[..i + 1], a, b) == Shifts(cs[..i], a, b) + [HdSubCst(FP, cs[i], a), HdAddCst(FP, cs[i], b)]
    ensures ShiftKeys(delta, ks[..i + 1], a, b)
         == ShiftKeys(delta, ks[..i], a, b) + [KeySubCst(FP, delta, ks[i], a), KeyAddCst(FP, delta, ks[i], b)]
  {
    hide HdSubCst, HdAddCst, KeySubCst, KeyAddCst;
    assert cs[..i + 1][..i] == cs[..i] && ks[..i + 1][..i] == ks[..i];
  }

  lemma BothBelow(xs: seq<Fp>, ys: seq<Fp>, lower: int, upper: int)
    requires Prepare(lower, upper).Some? && |ys| == 2 * |xs|
    requires var (m, a, c) := Prepare(lower, upper).value;
             forall i :: 0 <= i < |xs| ==> ys[2 * i] == FP.Sub(xs[i], a) && ys[2 * i + 1] == FP.add(xs[i], c)
    ensures AllBelow(ys, Prepare(lower, upper).value.0) <==> AllInRange(xs, lower, upper)
  {
    hide Prepare, InRange, ToFp, Pow2, IsPrime;
    var m := Prepare(lower, upper).value.0;
    forall i | 0 <= i < |xs| ensures ys[2 * i] < Pow2(m) && ys[2 * i + 1] < Pow2(m) <==> InRange(xs[i], lower, upper) {
      PairBelow(xs[i], lower, upper);
    }
    Interleaved(xs, ys, m, lower, upper);
  }

  lemma PairBelow(x: Fp, lower: int, upper: int)
    requires Prepare(lower, upper).Some?
    ensures var (m, a, c) := Prepare(lower, upper).value;
            FP.Sub(x, a) < Pow2(m) && FP.add(x, c) < Pow2(m) <==> InRange(x, lower, upper)
  {
    hide Prepare, InRange, ToFp, Pow2, IsPrime;
    PrepareMeans(lower, upper);
    var (m, a, c) := Prepare(lower, upper).value;
    SignedRangeExact(x, lower, upper);
    BelowIsInRange(FP.Sub(x, a), m);
    BelowIsInRange(FP.add(x, c), m);
  }

  lemma Interleaved(xs: seq<Fp>, ys: seq<Fp>, m: nat, lower: int, upper: int)
    requires |ys| == 2 * |xs|
    requires forall i :: 0 <= i < |xs| ==>
      (ys[2 * i] < Pow2(m) && ys[2 * i + 1] < Pow2(m) <==> InRange(xs[i], lower, upper))
    ensures AllBelow(ys, m) <==> AllInRange(xs, lower, upper)
  {
    hide InRange, Pow2, IsPrime;
    if AllInRange(xs, lower, upper) {
      forall j | 0 <= j < |ys| ensures ys[j] < Pow2(m) {
        var i := j / 2;
        assert InRange(xs[i], lower, upper);
        assert j == 2 * i || j == 2 * i + 1;
      }
    }
  }

  lemma BelowIsInRange(x: Fp, m: nat)
    requires Pow2(m) <= P
    ensures x < Pow2(m) <==> InRange(x, 0, Pow2(m) - 1)
  {
    RangeZeroIff(x, m);
    Pow2RangeExact(x, m);
  }

  /** `qs_check_range` on a list of authenticated values: refused for bounds that the asserts do not admit; otherwise an
      honest run is accepted exactly when every value represents an integer in [lower, upper]. */
  method RunCheckRange(p: FComProver<Fp>, v: FComVerifier<Fp>, chi: Fp, lower: int, upper: int, size: nat,
                       cs: seq<seq<Fp>>, ks: seq<HdKey<Fp>>, ghost xs: seq<Fp>) returns (ok: bool, proof: seq<Fp>)
    requires Linked(p, v) && p.r == FP && HdList(v.delta, cs, ks, xs) && size > 0
    modifies p, v
    ensures Linked(p, v)
    ensures ok <==> Prepare(lower, upper).Some? && AllInRange(xs, lower, upper)
    ensures ok ==>
              var (m, a, c) := Prepare(lower, upper).value;
              && m > 0 && Proper(cs)
              && proof == RangeMessage(p.basis, p.supply, old(p.used), chi, m, size, Shifts(cs, a, c))
    ensures ok && cs != [] ==>
              var m := Prepare(lower, upper).value.0;
              && m > 0 && p.used == old(p.used) + RangeVoles(2 * |cs|, m, size, |p.basis|)
              && v.used == old(v.used) + RangeVoles(2 * |cs|, m, size, |p.basis|)
  {
    hide Linked, Hd, AllBelow, AllInRange, Pow2, IsPrime, RangeVoles, ToFp, RangeMessage;
    var prepared := Prepare(lower, upper);
    if prepared.None? {
      return false, [];
    }
    PrepareMeans(lower, upper);
    hide Prepare;
    var (m, a, c) := prepared.value;
    var ds, ls;
    ghost var ys;
    ds, ls, ys := RunShift(v.delta, cs, ks, xs, a, c);
    BothBelow(xs, ys, lower, upper);
    ok, proof := RunPow2Ranges(p, v, chi, m, size, ds, ls, ys);
  }
}
