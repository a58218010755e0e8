/** Whole verifications of fixed-point multiplications, seeded over the prime field alone. */
module CheddaFpRun {
  import opened Options
  import opened Arith
  import opened Rings
  import opened PrimeField
  import opened Bits
  import opened Polynomials
  import opened Homcom
  import opened QuickSilver
  import opened FdabitRun
  import opened EdabitConversionRun
  import opened HdQuicksilver
  import opened HdMacs
  import opened HdValues
  import opened CheddaPrg
  import opened CheddaMaj7
  import opened CheddaChecks
  import opened CheddaConv
  import opened CheddaConvRun
  import opened CheddaLists
  import opened CheddaFpMult
  import opened CheddaFpLists

  // ---- one output bit over the prime field ----

  ghost function Lifted<F>(r: Ring<F>, ys: seq<Fp>): (xs: seq<F>)
    ensures |xs| == |ys|
  {
    seq(|ys|, i requires 0 <= i < |ys| => if ys[i] == 1 then r.one else r.zero)
  }

  lemma LiftedSame<F(!new)>(r: Ring<F>, ys: seq<Fp>)
    requires r.zero != r.one && forall i :: 0 <= i < |ys| ==> ys[i] <= 1
    ensures SameBits(r, Lifted(r, ys), ys)
  {
  }

  /** Whatever bits the seed holds, the output is a bit of degree DP (r is any binary ring). */
  lemma OutputBit<F(!new)>(pred: Pred, r: Ring<F>, dp: Fp, sigma: seq<nat>, pp: seq<MacProver<Fp>>,
                           vp: seq<MacVerifier<Fp>>) returns (x: Fp)
    requires pred.Available() && IsBinary(r) && SigmaOk(sigma, pred.Loc(), |pp|)
    requires AuthAll(FP, dp, pp, vp) && forall i :: 0 <= i < |pp| ==> pp[i].x <= 1
    ensures |pp| == |vp|
    ensures HdBitOk(pred, dp, OutPp(pred, PickedP(FP, pp, sigma)), OutVp(pred, dp, PickedV(FP, vp, sigma)), x)
    ensures x == BitNat(r, OutValue(pred, r, Lifted(r, PickedValues(pp, sigma))))
  {
    hide IsBit, Hd, TspaPp, TspaVp, X4Pp, X4Vp, TspaValue2, X4Value2, X4ValueP, TspaInner, XorValue, AddFirst, OnesP,
         BitNat;
    FpIsRing();
    PickedHd(FP, dp, pp, vp, sigma);
    var ys := PickedValues(pp, sigma);
    assert r.zero != r.one;
    LiftedSame(r, ys);
    var xs := Lifted(r, ys);
    hide IsRing, AuthAll, HdAll, PickedValues, SameBits, IsBinary;
    if pred.Tspa? {
      TspaAuthP(FP, dp, PickedP(FP, pp, sigma), PickedV(FP, vp, sigma), ys);
      TspaAgrees(r, xs, ys);
      x := XorValue(FP, TspaInner(FP, ys), ys[0]);
    } else {
      PickedBits(pp, sigma);
      X4AuthP(dp, PickedP(FP, pp, sigma), PickedV(FP, vp, sigma), ys);
      X4Agrees(r, xs, ys);
      x := X4ValueP(ys, if OnesP(ys[4..]) >= 4 then 1 else 0);
    }
  }

  lemma PickedBits(pp: seq<MacProver<Fp>>, sigma: seq<nat>)
    requires SigmaOk(sigma, |sigma|, |pp|) && forall i :: 0 <= i < |pp| ==> pp[i].x <= 1
    ensures forall i :: 0 <= i < |sigma| ==> PickedValues(pp, sigma)[i] <= 1
  {
  }

  /** Output number i of the prime field alone. */
  ghost function ExpandedBit(g: LocalPrg, sp: seq<MacProver<Fp>>, i: nat): seq<Fp> {
    if SigmaOk(g.sigma(i), g.pred.Loc(), |sp|) then OutPp(g.pred, PickedP(FP, sp, g.sigma(i))) else []
  }

  lemma ExpandedBitIs(g: LocalPrg, sp: seq<MacProver<Fp>>, i: nat)
    requires SigmaOk(g.sigma(i), g.pred.Loc(), |sp|)
    ensures ExpandedBit(g, sp, i) == OutPp(g.pred, PickedP(FP, sp, g.sigma(i)))
  {
    hide OutPp, PickedP;
  }

  method RunNextBit<F(!new)>(g: LocalPrg, h: LocalPrg, ghost r: Ring<F>, dp: Fp, sp: seq<MacProver<Fp>>,
                             kp: seq<MacVerifier<Fp>>)
    returns (c: seq<Fp>, k: HdKey<Fp>, ghost x: Fp)
    requires Twins(g, h) && IsBinary(r) && |sp| == g.seedLength && AuthAll(FP, dp, sp, kp) && g.count < g.outputLength
    requires forall i :: 0 <= i < |sp| ==> sp[i].x <= 1
    modifies g, h
    ensures Twins(g, h) && g.count == old(g.count) + 1 && HdBitOk(g.pred, dp, c, k, x)
    ensures SigmaOk(g.sigma(old(g.count)), g.pred.Loc(), |sp|) && c == ExpandedBit(g, sp, old(g.count))
    ensures x == BitNat(r, OutValue(g.pred, r, Lifted(r, PickedValues(sp, g.sigma(old(g.count))))))
  {
    hide ExpandedBit, IsRing, IsBinary, AuthAll, OutPp, OutVp, Hd, OutValue;
    x := OutputBit(g.pred, r, dp, g.sigma(g.count), sp, kp);
    ExpandedBitIs(g, sp, g.count);
    var next := g.NextProverP(sp);
    var nextKey := h.NextVerifierP(dp, kp);
    c, k := next.value, nextKey.value;
  }

  // ---- seeding ----

  /** (x - 1) * x = 0: a committed seed value is a bit. */
  method RunSeedBit(sp: QSStateProver<Fp>, sv: QSStateVerifier<Fp>, m: MacProver<Fp>, l: MacVerifier<Fp>)
    requires QsOk(sp, sv, 2) && sp.r == FP && Auth(FP, sv.delta, m, l) && m.x <= 1
    modifies sp, sp.state, sv, sv.state
    ensures QsOk(sp, sv, 2) && sp.state == old(sp.state) && sv.state == old(sv.state)
    ensures sp.checked == old(sp.checked) + [SeedBitPoly(m)]
    ensures sv.checked == old(sv.checked) + [SeedBitKey(sv.delta, l)]
  {
    hide QsOk, Hd, IsRing, HdSubCst, KeySubCst, Auth, QsState, QsKey, Eval, MulSeq, KeyMul, FromMac, KeyFromMac, FpMul;
    QsRing(sp, sv, 2);
    FpIsRing();
    SeedBitHd(sv.delta, m, l);
    BitVanishes(m.x);
    var t := new HDMacProver.From(FP, m);
    t.SubAssignConstant(1);
    var s := new HDMacProver.From(FP, m);
    t.MulAssign(s);
    var u := new HDMacVerifier.From(FP, l);
    u.SubAssignConstant(sv.delta, 1);
    var w := new HDMacVerifier.From(FP, l);
    u.MulAssign(w);
    RunCheckZero(sp, sv, 2, t, u);
  }

  function BitsFp(bs: seq<bool>): (xs: seq<Fp>)
    ensures |xs| == |bs|
  {
    seq(|bs|, i requires 0 <= i < |bs| => BitFp(bs[i]))
  }

  function SeedCost(seedLength: nat, basis: nat): nat {
    seedLength + CheckCost(2, basis)
  }

  /** Every committed value is proved to be a bit. */
  method RunSeedBits(sp: QSStateProver<Fp>, sv: QSStateVerifier<Fp>, ms: seq<MacProver<Fp>>, ls: seq<MacVerifier<Fp>>,
                     ghost bits: seq<bool>)
    requires QsOk(sp, sv, 2) && sp.r == FP && sp.checked == [] && sv.checked == [] && AuthAll(FP, sv.delta, ms, ls)
    requires Values(ms) == BitsFp(bits)
    modifies sp, sp.state, sv, sv.state
    ensures QsOk(sp, sv, 2) && sp.checked == SeedBitPolys(ms) && sv.checked == SeedBitKeys(sv.delta, ls)
  {
    hide QsOk, Auth, SeedBitPoly, SeedBitKey;
    ghost var stateP, stateV := sp.state, sv.state;
    for i := 0 to |ms|
      invariant QsOk(sp, sv, 2) && sp.state == stateP && sv.state == stateV
      invariant sp.checked == SeedBitPolys(ms[..i]) && sv.checked == SeedBitKeys(sv.delta, ls[..i])
    {
      assert Values(ms)[i] == ms[i].x == BitFp(bits[i]);
      RunSeedBit(sp, sv, ms[i], ls[i]);
    }
    assert ms[..|ms|] == ms && ls[..|ms|] == ls;
  }

  /** The sampled bits are committed to, and proved to be bits. */
  method RunCommitBits(p: FComProver<Fp>, v: FComVerifier<Fp>, bits: seq<bool>, chi: Fp)
    returns (sp: seq<MacProver<Fp>>, kp: seq<MacVerifier<Fp>>, proof: seq<Fp>)
    requires Linked(p, v) && p.r == FP && bits != []
    modifies p, v
    ensures Linked(p, v) && AuthAll(FP, v.delta, sp, kp) && Values(sp) == BitsFp(bits)
    ensures sp == CommitAll(BitsFp(bits), Delivered(p.supply, old(p.used), |bits|))
    ensures proof == DeliveredProof(FP, p.basis, p.supply, old(p.used) + |bits|, chi, SeedBitPolys(sp))
    ensures p.used == old(p.used) + SeedCost(|bits|, |p.basis|) && v.used == old(v.used) + SeedCost(|bits|, |p.basis|)
  {
    hide Productive, Linked, IsRing, QsOk, AuthAll, Times, FP, BitsFp, SeedBitPolys, SeedBitKeys, CommitAll, Delivered,
         DeliveredProof, Values;
    sp, kp := RunInput(p, v, BitsFp(bits));
    CommittedCount(sp, bits);
    proof := RunProveBits(p, v, bits, chi, sp, kp, old(p.used) + |bits|);
  }

  method RunProveBits(p: FComProver<Fp>, v: FComVerifier<Fp>, ghost bits: seq<bool>, chi: Fp, sp: seq<MacProver<Fp>>,
                      kp: seq<MacVerifier<Fp>>, ghost from: nat) returns (proof: seq<Fp>)
    requires Linked(p, v) && p.r == FP && bits != [] && AuthAll(FP, v.delta, sp, kp) && Values(sp) == BitsFp(bits)
    requires p.used == from
    modifies p, v
    ensures Linked(p, v)
    ensures proof == DeliveredProof(FP, p.basis, p.supply, from, chi, SeedBitPolys(sp))
    ensures p.used == old(p.used) + CheckCost(2, |p.basis|) && v.used == old(v.used) + CheckCost(2, |p.basis|)
  {
    hide Linked, IsRing, QsOk, AuthAll, Times, FP, BitsFp, SeedBitPolys, SeedBitKeys, DeliveredProof, Values;
    LinkedRing(p, v);
    CommittedCount(sp, bits);
    var qp, qv := RunNewCheck(p, v, chi, 2);
    RunSeedBits(qp, qv, sp, kp, bits);
    var ok;
    ok, proof := RunFinish(qp, qv, 2, p, v);
  }

  lemma CommittedCount(sp: seq<MacProver<Fp>>, bits: seq<bool>)
    requires Values(sp) == BitsFp(bits)
    ensures |sp| == |bits|
  {
    assert |Values(sp)| == |sp|;
  }

  /** A feed seeded with fresh bits over the prime field alone. */
  ghost function FpSeeded<F>(g: LocalPrg, f: Feed<F>, bits: seq<bool>): Feed<F> {
    Feed(f.stock.After(0, SeedCost(g.seedLength, |f.stock.basisP|)), [],
         CommitAll(BitsFp(bits), f.stock.Prime(0, g.seedLength)), 0)
  }

  /** The message that proves those seeds to be bits. */
  ghost function FpSeedProof<F>(g: LocalPrg, f: Feed<F>, bits: seq<bool>, chi: Fp): seq<Fp> {
    DeliveredProof(FP, f.stock.basisP, f.stock.sp, f.stock.up + g.seedLength, chi,
                   SeedBitPolys(FpSeeded(g, f, bits).seedP))
  }

  /** `gen_seed_fp_only`: fresh random bits over the prime field; any daBit seed is dropped. */
  method RunSeedFpOnly<F(!new, ==)>(p: CheddaProver<F>, v: CheddaVerifier<F>, bits: seq<bool>, chi: Fp)
    returns (proof: seq<Fp>)
    requires Ready(p, v) && |bits| == p.prg.seedLength
    modifies p, p.prg, p.fcomP, v, v.prg, v.fcomP
    ensures Ready(p, v) && p.seed2 == [] && p.seedP != [] && p.prg.count == 0 && Values(p.seedP) == BitsFp(bits)
    ensures FeedOf(p) == FpSeeded(p.prg, old(FeedOf(p)), bits) && proof == FpSeedProof(p.prg, old(FeedOf(p)), bits, chi)
    ensures UsedBy(p, v) == old(UsedBy(p, v)).Plus(0, SeedCost(p.prg.seedLength, |p.fcomP.basis|))
  {
    hide Wired, SeedState, Linked, IsRing, DrawsBits, IsBinary, Ready, Twins, AuthAll, SeedCost, LocalPrg.Valid,
         CommitAll, Delivered, DeliveredProof, BitsFp, SeedBitPolys, FP, Values, FeedOf, FpSeeded,
         FpSeedProof, UsedBy, Used.Plus;
    ghost var f, u := FeedOf(p), UsedBy(p, v);
    UsedParts(p, v);
    FeedIs(p, StockOf(p.fcom2, p.fcomP), p.seed2, p.seedP, p.prg.count);
    ReadyParts(p, v);
    WiredParts(p, v);
    var sp, kp;
    sp, kp, proof := RunCommitBits(p.fcomP, v.fcomP, bits, chi);
    CommittedCount(sp, bits);
    StillTwins(p.prg, v.prg);
    p.prg.Reset();
    v.prg.Reset();
    p.SetSeeds([], sp);
    v.SetSeeds([], kp);
    FpSeed(p.fcom2.r, v.fcom2.delta, v.fcomP.delta, bits, sp, kp);
    Rewired(p, v);
    FreshReady(p, v);
    FpSeededFrom(p.prg, f, bits, chi, sp, proof);
    FeedIs(p, f.stock.After(0, SeedCost(p.prg.seedLength, |p.fcomP.basis|)), [], sp, 0);
    UsedIs(p, v, u, 0, SeedCost(p.prg.seedLength, |p.fcomP.basis|));
  }

  lemma FpSeededFrom<F>(g: LocalPrg, f: Feed<F>, bits: seq<bool>, chi: Fp, sp: seq<MacProver<Fp>>, proof: seq<Fp>)
    requires |bits| == g.seedLength && sp == CommitAll(BitsFp(bits), Delivered(f.stock.sp, f.stock.up, |bits|))
    requires proof
          == DeliveredProof(FP, f.stock.basisP, f.stock.sp, f.stock.up + |bits|, chi, SeedBitPolys(sp))
    ensures FpSeeded(g, f, bits) == Feed(f.stock.After(0, SeedCost(g.seedLength, |f.stock.basisP|)), [], sp, 0)
    ensures proof == FpSeedProof(g, f, bits, chi)
  {
    hide CommitAll, BitsFp, Delivered, DeliveredProof, SeedBitPolys, SeedCost;
  }

  lemma FpSeed<F(!new)>(r: Ring<F>, d2: F, dp: Fp, bits: seq<bool>, sp: seq<MacProver<Fp>>, kp: seq<MacVerifier<Fp>>)
    requires AuthAll(FP, dp, sp, kp) && Values(sp) == BitsFp(bits)
    ensures SeedState(r, d2, dp, |bits|, [], [], sp, kp)
  {
    hide Auth;
    assert |sp| == |Values(sp)|;
    forall i | 0 <= i < |sp| ensures sp[i].x <= 1 {
      assert Values(sp)[i] == sp[i].x;
    }
  }

  /** The feed that the next bit is taken from, the bit, and the feed after it. */
  ghost function BitRoom<F>(g: LocalPrg, f: Feed<F>, bits: seq<bool>): Feed<F>
    requires g.outputLength > g.seedLength
  {
    if f.count == Capacity(g) then FpSeeded(g, f, bits) else f
  }

  ghost function FedBit<F>(g: LocalPrg, f: Feed<F>, bits: seq<bool>): seq<Fp>
    requires g.outputLength > g.seedLength
  {
    ExpandedBit(g, BitRoom(g, f, bits).seedP, BitRoom(g, f, bits).count)
  }

  ghost function BitFed<F>(g: LocalPrg, f: Feed<F>, bits: seq<bool>): Feed<F>
    requires g.outputLength > g.seedLength
  {
    var room := BitRoom(g, f, bits);
    room.(count := room.count + 1)
  }

  ghost function BitProofs<F>(g: LocalPrg, f: Feed<F>, bits: seq<bool>, chi: Fp): seq<seq<Fp>>
    requires g.outputLength > g.seedLength
  {
    if f.count == Capacity(g) then [FpSeedProof(g, f, bits, chi)] else []
  }

  /** The same for n bits. */
  ghost function BitsFedAfter<F>(g: LocalPrg, f: Feed<F>, bits: nat -> seq<bool>, n: nat): Feed<F>
    requires g.outputLength > g.seedLength
  {
    if n == 0 then f else BitFed(g, BitsFedAfter(g, f, bits, n - 1), bits(n - 1))
  }

  ghost function FedBits<F>(g: LocalPrg, f: Feed<F>, bits: nat -> seq<bool>, n: nat): (cs: seq<seq<Fp>>)
    requires g.outputLength > g.seedLength
    ensures |cs| == n
  {
    if n == 0 then [] else FedBits(g, f, bits, n - 1) + [FedBit(g, BitsFedAfter(g, f, bits, n - 1), bits(n - 1))]
  }

  ghost function FedBitProofs<F>(g: LocalPrg, f: Feed<F>, bits: nat -> seq<bool>, chis: nat -> Fp,
                                 n: nat): seq<seq<Fp>>
    requires g.outputLength > g.seedLength
  {
    if n == 0 then []
    else
      FedBitProofs(g, f, bits, chis, n - 1)
      + BitProofs(g, BitsFedAfter(g, f, bits, n - 1), bits(n - 1), chis(n - 1))
  }

  /** The first half of `gen_bit`: reseeds when only the outputs held back are left. */
  method RunBitRoom<F(!new, ==)>(p: CheddaProver<F>, v: CheddaVerifier<F>, bits: seq<bool>, chi: Fp)
    returns (sent: seq<seq<Fp>>)
    requires Ready(p, v) && |bits| == p.prg.seedLength && p.seedP != []
    modifies p, p.prg, p.fcomP, v, v.prg, v.fcomP
    ensures Ready(p, v) && p.seedP != [] && p.prg.outputLength > p.prg.seedLength && p.prg.count < Capacity(p.prg)
    ensures p.prg.count + 1 == NextCount(Capacity(p.prg), old(p.prg.count))
    ensures FeedOf(p) == BitRoom(p.prg, old(FeedOf(p)), bits)
    ensures sent == BitProofs(p.prg, old(FeedOf(p)), bits, chi)
    ensures var again := Again(Capacity(p.prg), old(p.prg.count));
            UsedBy(p, v) == old(UsedBy(p, v)).Plus(0, Times(again, SeedCost(p.prg.seedLength, |p.fcomP.basis|)))
  {
    hide Wired, SeedState, IsRing, IsBinary, SeedCost, Ready, Twins, Times, FpSeeded, FpSeedProof, BitsFp, Values, FP,
         StockOf;
    ReadyParts(p, v);
    sent := [];
    if p.prg.Remaining() <= p.prg.seedLength {
      var proof := RunSeedFpOnly(p, v, bits, chi);
      sent := [proof];
    }
    OneTime(SeedCost(p.prg.seedLength, |p.fcomP.basis|));
  }

  /** c is the next bit of the feed, and `next` is the feed after it. */
  ghost predicate BitDealt<F>(g: LocalPrg, f: Feed<F>, bits: seq<bool>, next: Feed<F>, c: seq<Fp>)
    requires g.outputLength > g.seedLength
  {
    c == FedBit(g, f, bits) && next == BitFed(g, f, bits)
  }

  lemma BitDealtFrom<F>(g: LocalPrg, f: Feed<F>, bits: seq<bool>, room: Feed<F>, next: Feed<F>, c: seq<Fp>)
    requires g.outputLength > g.seedLength && room == BitRoom(g, f, bits)
    requires c == ExpandedBit(g, room.seedP, room.count) && next == room.(count := room.count + 1)
    ensures BitDealt(g, f, bits, next, c)
  {
    hide ExpandedBit, BitRoom;
  }

  /** The next output, of an expansion that has one to give. */
  method RunTakeBit<F(!new, ==)>(p: CheddaProver<F>, v: CheddaVerifier<F>, ghost f: Feed<F>,
                                  ghost bits: seq<bool>)
    returns (c: seq<Fp>, k: HdKey<Fp>, ghost x: Fp)
    requires Ready(p, v) && p.seedP != [] && p.prg.outputLength > p.prg.seedLength && p.prg.count < Capacity(p.prg)
    requires FeedOf(p) == BitRoom(p.prg, f, bits)
    modifies p.prg, v.prg
    ensures Ready(p, v) && HdBitOk(p.prg.pred, v.fcomP.delta, c, k, x) && p.prg.count == old(p.prg.count) + 1
    ensures p.prg.outputLength > p.prg.seedLength && BitDealt(p.prg, f, bits, FeedOf(p), c)
  {
    hide Wired, SeedState, IsBinary, HdBitOk, Ready, Twins, StockOf, LocalPrg.Valid, FP, AuthAll, ExpandedBit,
         FeedOf, BitRoom, BitDealt;
    ReadyParts(p, v);
    SeedPBits(p.fcom2.r, v.fcom2.delta, v.fcomP.delta, p.prg.seedLength, p.seed2, v.seed2, p.seedP, v.seedP);
    ghost var s, room := StockOf(p.fcom2, p.fcomP), FeedOf(p);
    FeedIs(p, s, p.seed2, p.seedP, p.prg.count);
    c, k, x := RunNextBit(p.prg, v.prg, p.fcom2.r, v.fcomP.delta, p.seedP, v.seedP);
    StillReady(p, v);
    FeedIs(p, s, p.seed2, p.seedP, p.prg.count);
    BitDealtFrom(p.prg, f, bits, room, FeedOf(p), c);
  }

  /** `gen_bit` */
  method RunGenBit<F(!new, ==)>(p: CheddaProver<F>, v: CheddaVerifier<F>, bits: seq<bool>, chi: Fp)
    returns (c: seq<Fp>, k: HdKey<Fp>, ghost x: Fp, sent: seq<seq<Fp>>)
    requires Ready(p, v) && |bits| == p.prg.seedLength && p.seedP != []
    modifies p, p.prg, p.fcomP, v, v.prg, v.fcomP
    ensures Ready(p, v) && p.seedP != [] && HdBitOk(p.prg.pred, v.fcomP.delta, c, k, x)
    ensures p.prg.count == NextCount(Capacity(p.prg), old(p.prg.count))
    ensures BitDealt(p.prg, old(FeedOf(p)), bits, FeedOf(p), c)
    ensures sent == BitProofs(p.prg, old(FeedOf(p)), bits, chi)
    ensures var again := Again(Capacity(p.prg), old(p.prg.count));
            UsedBy(p, v) == old(UsedBy(p, v)).Plus(0, Times(again, SeedCost(p.prg.seedLength, |p.fcomP.basis|)))
  {
    hide Wired, HdBitOk, SeedCost, Ready, Twins, Times, ExpandedBit, BitRoom, BitProofs, NextCount, Again, StockOf,
         UsedBy, Used.Plus, FP, Capacity, Values, FeedOf, BitDealt;
    ReadyCapacity(p, v);
    ghost var f := FeedOf(p);
    sent := RunBitRoom(p, v, bits, chi);
    c, k, x := RunTakeBit(p, v, f, bits);
  }

  lemma SeedPBits<F(!new)>(r: Ring<F>, d2: F, dp: Fp, len: nat, s2: seq<MacProver<F>>, k2: seq<MacVerifier<F>>,
                           sp: seq<MacProver<Fp>>, kp: seq<MacVerifier<Fp>>)
    requires SeedState(r, d2, dp, len, s2, k2, sp, kp) && sp != []
    ensures |sp| == len && AuthAll(FP, dp, sp, kp) && forall i :: 0 <= i < |sp| ==> sp[i].x <= 1
  {
  }

  method RunGenBits<F(!new, ==)>(p: CheddaProver<F>, v: CheddaVerifier<F>, bits: nat -> seq<bool>, chis: nat -> Fp,
                                 n: nat)
    returns (cs: seq<seq<Fp>>, ks: seq<HdKey<Fp>>, ghost xs: seq<Fp>, sent: seq<seq<Fp>>)
    requires Ready(p, v) && (forall i :: |bits(i)| == p.prg.seedLength) && p.seedP != []
    modifies p, p.prg, p.fcomP, v, v.prg, v.fcomP
    ensures Ready(p, v) && p.seedP != [] && |cs| == n && HdBitsOk(p.prg.pred, v.fcomP.delta, cs, ks, xs)
    ensures p.prg.count == CountAfter(Capacity(p.prg), old(p.prg.count), n)
    ensures var f := old(FeedOf(p));
            && cs == FedBits(p.prg, f, bits, n) && FeedOf(p) == BitsFedAfter(p.prg, f, bits, n)
            && sent == FedBitProofs(p.prg, f, bits, chis, n)
    ensures var again := Reseeds(Capacity(p.prg), old(p.prg.count), n);
            UsedBy(p, v) == old(UsedBy(p, v)).Plus(0, Times(again, SeedCost(p.prg.seedLength, |p.fcomP.basis|)))
  {
    hide Ready, HdBitOk, SeedCost, Times, FedBit, BitFed, BitProofs, Again, NextCount;
    ReadyCapacity(p, v);
    ghost var per, cost := Capacity(p.prg), SeedCost(p.prg.seedLength, |p.fcomP.basis|);
    hide Capacity;
    ghost var f := FeedOf(p);
    cs, ks, xs, sent := [], [], [], [];
    NoTimes(cost);
    for i := 0 to n
      invariant Ready(p, v) && p.seedP != [] && |cs| == i && HdBitsOk(p.prg.pred, v.fcomP.delta, cs, ks, xs)
      invariant p.prg.count == CountAfter(per, old(p.prg.count), i)
      invariant cs == FedBits(p.prg, f, bits, i) && FeedOf(p) == BitsFedAfter(p.prg, f, bits, i)
      invariant sent == FedBitProofs(p.prg, f, bits, chis, i)
      invariant UsedBy(p, v) == old(UsedBy(p, v)).Plus(0, Times(Reseeds(per, old(p.prg.count), i), cost))
    {
      ghost var again := Again(per, p.prg.count);
      AgainOnce(per, p.prg.count);
      TimesPlus(Reseeds(per, old(p.prg.count), i), again, cost);
      var c, k, proofs;
      ghost var x;
      c, k, x, proofs := RunGenBit(p, v, bits(i), chis(i));
      cs, ks, xs, sent := cs + [c], ks + [k], xs + [x], sent + proofs;
    }
  }

  lemma AgainOnce(per: nat, count: nat)
    ensures Again(per, count) <= 1
  {
  }

  // ---- one multiplication ----

  /** A random bit flipped to a bit of the product, ready to be scaled and taken off. */
  method RunFlip(delta: Fp, a: seq<Fp>, b: HdKey<Fp>, c: bool) returns (t: HDMacProver<Fp>, u: HDMacVerifier<Fp>)
    requires |a| >= 2 && b.degree >= 1
    ensures fresh(t) && fresh(u) && Holding(FP, t, u, FlipP(c, a), FlipV(delta, c, b))
  {
    FpIsRing();
    hide IsRing, HdSubCst, KeySubCst, ScaleSeq, KeyScale;
    t := new HDMacProver.Load(FP, a);
    u := new HDMacVerifier.Load(FP, b);
    if c {
      t.SubAssignConstant(1);
      t.MulAssignConstant(FpNeg(1));
      u.SubAssignConstant(delta, 1);
      u.MulAssignConstant(FpNeg(1));
    }
  }

  method RunScale(t: HDMacProver<Fp>, u: HDMacVerifier<Fp>, pow: Fp, ghost c: seq<Fp>, ghost k: HdKey<Fp>)
    requires Holding(FP, t, u, c, k)
    modifies t, u
    ensures Holding(FP, t, u, ScaleSeq(FP, pow, c), KeyScale(FP, pow, k))
  {
    hide IsRing, ScaleSeq, KeyScale;
    t.MulAssignConstant(pow);
    u.MulAssignConstant(pow);
  }

  method RunTakeOff(delta: Fp, acc: HDMacProver<Fp>, key: HDMacVerifier<Fp>, ghost z: seq<Fp>, ghost zk: HdKey<Fp>,
                    t: HDMacProver<Fp>, u: HDMacVerifier<Fp>, ghost c: seq<Fp>, ghost k: HdKey<Fp>)
    requires Holding(FP, acc, key, z, zk) && Holding(FP, t, u, c, k) && acc != t && key != u
    modifies acc, key
    ensures Holding(FP, acc, key, HdSub(FP, z, c), KeySub(FP, delta, zk, k))
  {
    hide IsRing, HdSub, KeySub;
    acc.SubAssign(t);
    key.SubAssign(delta, u);
  }

  /** One bit of the product: below position f it counts for the product only, above it for the upper part too. */
  method RunProductBit(delta: Fp, acc: HDMacProver<Fp>, key: HDMacVerifier<Fp>, high: HDMacProver<Fp>,
                       highKey: HDMacVerifier<Fp>, ghost z: seq<Fp>, ghost zk: HdKey<Fp>, ghost h: seq<Fp>,
                       ghost hk: HdKey<Fp>, a: seq<Fp>, b: HdKey<Fp>, c: bool, i: nat, f: nat, pows: seq<Fp>)
    requires Holding(FP, acc, key, z, zk) && Holding(FP, high, highKey, h, hk) && |a| >= 2 && b.degree >= 1
    requires {acc as object, key} !! {high as object, highKey}
    requires i < |pows| && f < |pows| && forall j :: 0 <= j < |pows| ==> pows[j] == ToFp(Pow2(j))
    modifies acc, key, high, highKey
    ensures Holding(FP, acc, key, HdSub(FP, z, LowTerm(FlipP(c, a), i, f)),
                    KeySub(FP, delta, zk, LowKey(FlipV(delta, c, b), i, f)))
    ensures i < f ==> Holding(FP, high, highKey, h, hk)
    ensures i >= f ==>
              Holding(FP, high, highKey, HdSub(FP, h, ScaleSeq(FP, ToFp(Pow2(i - f)), FlipP(c, a))),
                      KeySub(FP, delta, hk, KeyScale(FP, ToFp(Pow2(i - f)), FlipV(delta, c, b))))
  {
    hide Holding, FlipP, FlipV, ToFp, Pow2, IsPrime, HdSub, KeySub, ScaleSeq, KeyScale;
    ghost var p, k := FlipP(c, a), FlipV(delta, c, b);
    var t, u := RunFlip(delta, a, b, c);
    if i < f {
      RunScale(t, u, pows[i], p, k);
      RunTakeOff(delta, acc, key, z, zk, t, u, LowTerm(p, i, f), LowKey(k, i, f));
    } else {
      ghost var q, l := ScaleSeq(FP, ToFp(Pow2(i - f)), p), KeyScale(FP, ToFp(Pow2(i - f)), k);
      RunScale(t, u, pows[i - f], p, k);
      RunTakeOff(delta, high, highKey, h, hk, t, u, q, l);
      RunScale(t, u, pows[f], q, l);
      RunTakeOff(delta, acc, key, z, zk, t, u, LowTerm(p, i, f), LowKey(k, i, f));
    }
  }

  /** All bits of one product: both running values become the polynomials of the two checks. */
  method RunProductBits(delta: Fp, acc: HDMacProver<Fp>, key: HDMacVerifier<Fp>, high: HDMacProver<Fp>,
                        highKey: HDMacVerifier<Fp>, ghost z: seq<Fp>, ghost zk: HdKey<Fp>, ghost h: seq<Fp>,
                        ghost hk: HdKey<Fp>, rs: seq<seq<Fp>>, ks: seq<HdKey<Fp>>, cs: seq<bool>, f: nat,
                        pows: seq<Fp>)
    requires Holding(FP, acc, key, z, zk) && Holding(FP, high, highKey, h, hk)
    requires {acc as object, key} !! {high as object, highKey}
    requires |rs| == |ks| == |cs| > f && forall i :: 0 <= i < |rs| ==> |rs[i]| >= 2 && ks[i].degree >= 1
    requires |pows| >= |rs| && forall j :: 0 <= j < |pows| ==> pows[j] == ToFp(Pow2(j))
    modifies acc, key, high, highKey
    ensures Holding(FP, acc, key, FullPoly(z, rs, cs, f), FullKey(delta, zk, ks, cs, f))
    ensures Holding(FP, high, highKey, HighPoly(h, rs, cs, f), HighKey(delta, hk, ks, cs, f))
  {
    hide Holding, FlipP, FlipV, ToFp, Pow2, IsPrime, LowTerm, LowKey, HdSub, KeySub, ScaleSeq, KeyScale;
    for i := 0 to |rs|
      invariant Holding(FP, acc, key, FullPoly(z, rs[..i], cs[..i], f), FullKey(delta, zk, ks[..i], cs[..i], f))
      invariant Holding(FP, high, highKey, HighPoly(h, rs[..i], cs[..i], f), HighKey(delta, hk, ks[..i], cs[..i], f))
    {
      assert rs[..i + 1][..i] == rs[..i] && ks[..i + 1][..i] == ks[..i] && cs[..i + 1][..i] == cs[..i];
      RunProductBit(delta, acc, key, high, highKey, FullPoly(z, rs[..i], cs[..i], f),
                    FullKey(delta, zk, ks[..i], cs[..i], f), HighPoly(h, rs[..i], cs[..i], f),
                    HighKey(delta, hk, ks[..i], cs[..i], f), rs[i], ks[i], cs[i], i, f, pows);
    }
    assert rs[..|rs|] == rs && ks[..|rs|] == ks && cs[..|rs|] == cs;
  }

  lemma BitShapes(pred: Pred, delta: Fp, rs: seq<seq<Fp>>, ks: seq<HdKey<Fp>>, xs: seq<Fp>)
    requires HdBitsOk(pred, delta, rs, ks, xs)
    ensures |rs| == |ks| == |xs| && forall i :: 0 <= i < |rs| ==> |rs[i]| >= 2 && ks[i].degree >= 1
  {
    hide Eval;
    forall i | 0 <= i < |rs| ensures |rs[i]| >= 2 && ks[i].degree >= 1 {
      BitParts(pred, delta, rs, ks, xs, i);
    }
  }

  /** The bits of the product, and how the random bits must be flipped to become them. */
  method ProductCorrections(z: Fp, rs: seq<seq<Fp>>, ghost pred: Pred, ghost delta: Fp, ghost ks: seq<HdKey<Fp>>,
                            ghost xs: seq<Fp>) returns (cs: seq<bool>)
    requires HdBitsOk(pred, delta, rs, ks, xs)
    ensures |cs| == |rs| == |xs| && CorrectedBits(xs, cs) == BoolBits(z, |rs|)
  {
    hide Eval;
    var bits := BoolBits(z, |rs|);
    cs := [];
    for i := 0 to |rs|
      invariant |cs| == i && forall j :: 0 <= j < i ==> cs[j] == (bits[j] != (xs[j] == 1))
    {
      assert HdBitOk(pred, delta, rs[i], ks[i], xs[i]);
      var top := rs[i][|rs[i]| - 1];
      assert top == xs[i];
      cs := cs + [bits[i] != (top == 1)];
    }
  }

  /** The two running values of a triple, with the bits of its product taken off. */
  method RunTripleValues(delta: Fp, ghost pred: Pred, t: FpTripleP, s: FpTripleV, ghost k: nat, f: nat,
                         rs: seq<seq<Fp>>, ks: seq<HdKey<Fp>>, ghost xs: seq<Fp>, pows: seq<Fp>)
    returns (acc: HDMacProver<Fp>, key: HDMacVerifier<Fp>, high: HDMacProver<Fp>, highKey: HDMacVerifier<Fp>,
             cs: seq<bool>)
    requires AuthTriple(FP, delta, t, s) && k + f > 0
    requires HdBitsOk(pred, delta, rs, ks, xs) && |rs| == k + 2 * f
    requires |pows| >= |rs| && forall j :: 0 <= j < |pows| ==> pows[j] == ToFp(Pow2(j))
    ensures fresh(acc) && fresh(key) && fresh(high) && fresh(highKey) && acc != high && key != highKey
    ensures |cs| == |rs| == |xs| && CorrectedBits(xs, cs) == BoolBits(FpMul(t.0.x, t.1.x), |rs|)
    ensures Holding(FP, acc, key, FullPoly(ProductPoly(t), rs, cs, f), FullKey(delta, ProductKey(s), ks, cs, f))
    ensures Holding(FP, high, highKey, HighPoly(FromMac(FP, t.2), rs, cs, f),
                    HighKey(delta, KeyFromMac(FP, s.2), ks, cs, f))
  {
    hide Hd, IsRing, Auth, Eval, HdBitsOk, ToFp, Pow2, FpMul, IsPrime, BoolBits, CorrectedBits, FromMac, KeyFromMac,
         FullPoly, FullKey, HighPoly, HighKey, MulSeq, KeyMul;
    FpIsRing();
    ProductHd(delta, t, s);
    BitShapes(pred, delta, rs, ks, xs);
    high := new HDMacProver.From(FP, t.2);
    highKey := new HDMacVerifier.From(FP, s.2);
    acc, key := RunProduct(delta, t, s);
    ProductValue(delta, t, s);
    var value := acc.GetValue();
    cs := ProductCorrections(value, rs, pred, delta, ks, xs);
    RunProductBits(delta, acc, key, high, highKey, ProductPoly(t), ProductKey(s), FromMac(FP, t.2),
                   KeyFromMac(FP, s.2), rs, ks, cs, f, pows);
  }

  lemma ProductValue(delta: Fp, t: FpTripleP, s: FpTripleV)
    requires AuthTriple(FP, delta, t, s)
    ensures ProductPoly(t) != [] && Value(ProductPoly(t)) == FpMul(t.0.x, t.1.x)
  {
    hide Eval, FpMul;
    ProductHd(delta, t, s);
  }

  method RunProduct(delta: Fp, t: FpTripleP, s: FpTripleV)
    returns (acc: HDMacProver<Fp>, key: HDMacVerifier<Fp>)
    ensures fresh(acc) && fresh(key) && Holding(FP, acc, key, ProductPoly(t), ProductKey(s))
  {
    FpIsRing();
    hide IsRing, MulSeq, KeyMul, FromMac, KeyFromMac;
    acc := new HDMacProver.From(FP, t.0);
    var b := new HDMacProver.From(FP, t.1);
    acc.MulAssign(b);
    key := new HDMacVerifier.From(FP, s.0);
    var u := new HDMacVerifier.From(FP, s.1);
    key.MulAssign(u);
  }

  /** With the corrections of an honest prover, the two checks carry the remainders of the product's own bits. */
  lemma TripleHd(pred: Pred, delta: Fp, t: FpTripleP, s: FpTripleV, k: nat, f: nat, rs: seq<seq<Fp>>,
                 ks: seq<HdKey<Fp>>, xs: seq<Fp>, cs: seq<bool>)
    requires AuthTriple(FP, delta, t, s) && HdBitsOk(pred, delta, rs, ks, xs) && k + f > 0
    requires |cs| == |rs| == |xs| == k + 2 * f && CorrectedBits(xs, cs) == BoolBits(FpMul(t.0.x, t.1.x), |rs|)
    ensures var bits := BoolBits(FpMul(t.0.x, t.1.x), |rs|);
            && Hd(FP, delta, FullPoly(ProductPoly(t), rs, cs, f), FullKey(delta, ProductKey(s), ks, cs, f),
                  FullRemainder(FpMul(t.0.x, t.1.x), bits, f), pred.DP())
            && Hd(FP, delta, HighPoly(FromMac(FP, t.2), rs, cs, f), HighKey(delta, KeyFromMac(FP, s.2), ks, cs, f),
                  HighRemainder(t.2.x, bits, f), pred.DP())
  {
    hide Hd, Eval, FpMul, HdBitsOk, FullRemainder, HighRemainder, FullPoly, FullKey, HighPoly, HighKey, BoolBits,
         CorrectedBits, ProductPoly, ProductKey, FromMac, KeyFromMac;
    ProductHd(delta, t, s);
    BitsLengths(pred, delta, rs, ks, xs);
    var n := |rs|;
    TakenOff(pred, delta, ProductPoly(t), ProductKey(s), FpMul(t.0.x, t.1.x), FromMac(FP, t.2), KeyFromMac(FP, s.2),
             t.2.x, rs, ks, xs, cs, f, n);
    assert rs[..n] == rs && ks[..n] == ks && cs[..n] == cs && CorrectedBits(xs, cs)[..n] == CorrectedBits(xs, cs);
  }

  lemma HdZero(delta: Fp, c: seq<Fp>, k: HdKey<Fp>, x: Fp, d: nat)
    requires Hd(FP, delta, c, k, x, d)
    ensures c != [] && Value(c) == x
  {
    hide Eval;
  }

  /** One multiplication: both assertions of the prover hold exactly when the triple is a truncated product, and what is
      then checked are its two listed polynomials,
      for the corrections that make the random bits those of the product. */
  method RunTriple(sp: QSStateProver<Fp>, sv: QSStateVerifier<Fp>, ghost pred: Pred, t: FpTripleP, s: FpTripleV, k: nat,
                   f: nat, rs: seq<seq<Fp>>, ks: seq<HdKey<Fp>>, ghost xs: seq<Fp>,
                   pows: seq<Fp>) returns (ok: bool, cs: seq<bool>)
    requires QsOk(sp, sv, pred.DP()) && sp.r == FP && AuthTriple(FP, sv.delta, t, s) && k + f > 0
    requires HdBitsOk(pred, sv.delta, rs, ks, xs) && |rs| == k + 2 * f
    requires |pows| >= |rs| && forall j :: 0 <= j < |pows| ==> pows[j] == ToFp(Pow2(j))
    modifies sp, sp.state, sv, sv.state
    ensures sp.state == old(sp.state) && sv.state == old(sv.state)
    ensures |cs| == |rs| == |xs| && CorrectedBits(xs, cs) == BoolBits(FpMul(t.0.x, t.1.x), |rs|)
    ensures ok <==> Truncates(t.0.x, t.1.x, t.2.x, k, f)
    ensures ok ==>
      && QsOk(sp, sv, pred.DP()) && sp.checked == old(sp.checked) + TriplePolys(t, rs, cs, f)
      && sv.checked == old(sv.checked) + TripleKeys(sv.delta, s, ks, cs, f)
  {
    hide QsOk, Hd, IsRing, AuthTriple, Eval, QsState, QsKey, HdBitsOk, FullRemainder, HighRemainder, ToFp, Pow2, FpMul,
         IsPrime, BoolBits, CorrectedBits, FromMac, KeyFromMac, Truncates, FullPoly, FullKey, HighPoly, HighKey,
         ProductPoly, ProductKey, Value;
    QsRing(sp, sv, pred.DP());
    var acc, key, high, highKey;
    acc, key, high, highKey, cs := RunTripleValues(sv.delta, pred, t, s, k, f, rs, ks, xs, pows);
    ghost var z, bits := FpMul(t.0.x, t.1.x), BoolBits(FpMul(t.0.x, t.1.x), |rs|);
    TripleHd(pred, sv.delta, t, s, k, f, rs, ks, xs, cs);
    ProductDecides(t.0.x, t.1.x, t.2.x, k, f);
    HdZero(sv.delta, high.Full(), highKey.Key(), HighRemainder(t.2.x, bits, f), pred.DP());
    HdZero(sv.delta, acc.Full(), key.Key(), FullRemainder(z, bits, f), pred.DP());
    var highValue := high.GetValue();
    var fullValue := acc.GetValue();
    ok := highValue == 0 && fullValue == 0;
    if ok {
      RunCheckZero(sp, sv, pred.DP(), high, highKey);
      RunCheckZero(sp, sv, pred.DP(), acc, key);
    }
  }

  // ---- a whole verification ----

  /** What is checked after m multiplications: corrections that make the random bits those of each product, and the
      polynomials and keys of their checks. */
  ghost predicate ProductsChecked(delta: Fp, ts: seq<FpTripleP>, ss: seq<FpTripleV>, n: nat, f: nat, rs: seq<seq<Fp>>,
                                  ks: seq<HdKey<Fp>>, xs: seq<Fp>, cs: seq<bool>, m: nat, polys: seq<seq<Fp>>,
                                  keys: seq<HdKey<Fp>>)
  {
    && m <= |ts| && |ts| == |ss| && |cs| == Times(m, n) && ProductBits(ts, n, xs, cs, m)
    && polys == FpPolys(ts, n, f, rs, cs, m) && keys == FpKeys(delta, ss, n, f, ks, cs, m)
  }

  /** The corrected random bits of the first m multiplications are the bits of their products. */
  ghost predicate ProductBits(ts: seq<FpTripleP>, n: nat, xs: seq<Fp>, cs: seq<bool>, m: nat)
    requires m <= |ts|
  {
    forall t :: 0 <= t < m ==>
      CorrectedBits(Part(xs, Times(t, n), n), Part(cs, Times(t, n), n)) == BoolBits(FpMul(ts[t].0.x, ts[t].1.x), n)
  }

  lemma NoProducts(delta: Fp, ts: seq<FpTripleP>, ss: seq<FpTripleV>, n: nat, f: nat, rs: seq<seq<Fp>>,
                   ks: seq<HdKey<Fp>>, xs: seq<Fp>)
    requires AuthTriples(FP, delta, ts, ss)
    ensures ProductsChecked(delta, ts, ss, n, f, rs, ks, xs, [], 0, [], [])
  {
  }

  lemma OneProduct(delta: Fp, ts: seq<FpTripleP>, ss: seq<FpTripleV>, n: nat, f: nat, rs: seq<seq<Fp>>,
                   ks: seq<HdKey<Fp>>, xs: seq<Fp>, cs: seq<bool>, m: nat, polys: seq<seq<Fp>>, keys: seq<HdKey<Fp>>,
                   c: seq<bool>)
    requires ProductsChecked(delta, ts, ss, n, f, rs, ks, xs, cs, m, polys, keys) && m < |ts| && |c| == n
    requires CorrectedBits(Part(xs, Times(m, n), n), c) == BoolBits(FpMul(ts[m].0.x, ts[m].1.x), n)
    ensures ProductsChecked(delta, ts, ss, n, f, rs, ks, xs, cs + c, m + 1,
                            polys + TriplePolys(ts[m], Part(rs, Times(m, n), n), c, f),
                            keys + TripleKeys(delta, ss[m], Part(ks, Times(m, n), n), c, f))
  {
    hide TriplePolys, TripleKeys, Times, CorrectedBits, BoolBits, FpMul, FpPolys, FpKeys;
    PrefixProducts(delta, ts, ss, n, f, rs, ks, cs, c, m);
    NextTimes(m, n);
    forall t | 0 <= t < m ensures Part(cs + c, Times(t, n), n) == Part(cs, Times(t, n), n) {
      SamePart(cs, c, m, n, t);
    }
    NextProducts(delta, ts, ss, n, f, rs, ks, cs + c, m);
    assert Part(cs + c, Times(m, n), n) == c;
  }

  lemma NextProducts(delta: Fp, ts: seq<FpTripleP>, ss: seq<FpTripleV>, n: nat, f: nat, rs: seq<seq<Fp>>,
                     ks: seq<HdKey<Fp>>, cs: seq<bool>, m: nat)
    requires m < |ts| == |ss|
    ensures FpPolys(ts, n, f, rs, cs, m + 1)
         == FpPolys(ts, n, f, rs, cs, m) + TriplePolys(ts[m], Part(rs, Times(m, n), n), Part(cs, Times(m, n), n), f)
    ensures FpKeys(delta, ss, n, f, ks, cs, m + 1)
         == FpKeys(delta, ss, n, f, ks, cs, m)
            + TripleKeys(delta, ss[m], Part(ks, Times(m, n), n), Part(cs, Times(m, n), n), f)
  {
    hide TriplePolys, TripleKeys, Times, Part;
  }

  lemma SamePart(cs: seq<bool>, c: seq<bool>, m: nat, n: nat, t: nat)
    requires |cs| == Times(m, n) && t < m
    ensures Part(cs + c, Times(t, n), n) == Part(cs, Times(t, n), n)
  {
    hide Times;
    TimesMonotone(t + 1, m, n);
    NextTimes(t, n);
  }

  /** The lists of the first m multiplications do not depend on later corrections. */
  lemma {:induction false} PrefixProducts(delta: Fp, ts: seq<FpTripleP>, ss: seq<FpTripleV>, n: nat, f: nat,
                                          rs: seq<seq<Fp>>, ks: seq<HdKey<Fp>>, cs: seq<bool>, c: seq<bool>, m: nat)
    requires m <= |ts| == |ss| && |cs| >= Times(m, n)
    ensures FpPolys(ts, n, f, rs, cs + c, m) == FpPolys(ts, n, f, rs, cs, m)
    ensures FpKeys(delta, ss, n, f, ks, cs + c, m) == FpKeys(delta, ss, n, f, ks, cs, m)
  {
    hide TriplePolys, TripleKeys, Times;
    if m > 0 {
      NextTimes(m - 1, n);
      PrefixProducts(delta, ts, ss, n, f, rs, ks, cs, c, m - 1);
      assert Part(cs + c, Times(m - 1, n), n) == Part(cs, Times(m - 1, n), n);
    }
  }

  /** All multiplications, one after the other; one that is not a truncated product stops the prover. */
  method RunTriples(sp: QSStateProver<Fp>, sv: QSStateVerifier<Fp>, ghost pred: Pred, ts: seq<FpTripleP>,
                    ss: seq<FpTripleV>, k: nat, f: nat, rs: seq<seq<Fp>>, ks: seq<HdKey<Fp>>,
                    ghost xs: seq<Fp>) returns (ok: bool, cs: seq<bool>)
    requires QsOk(sp, sv, pred.DP()) && sp.r == FP && AuthTriples(FP, sv.delta, ts, ss) && k + f > 0
    requires HdBitsOk(pred, sv.delta, rs, ks, xs) && |rs| == Times(|ts|, k + 2 * f)
    requires sp.checked == [] && sv.checked == []
    modifies sp, sp.state, sv, sv.state
    ensures sp.state == old(sp.state) && sv.state == old(sv.state)
    ensures ok <==> AllTruncate(ts, k, f)
    ensures ok ==>
      && QsOk(sp, sv, pred.DP())
      && ProductsChecked(sv.delta, ts, ss, k + 2 * f, f, rs, ks, xs, cs, |ts|, sp.checked, sv.checked)
  {
    hide QsOk, AuthTriple, HdBitsOk, Truncates, ToFp, Pow2, IsPrime, Times, ProductsChecked;
    var n, j := k + 2 * f, 0;
    var pows := GenPowersOfTwo(n);
    ok, cs := true, [];
    NoTimes(n);
    NoProducts(sv.delta, ts, ss, n, f, rs, ks, xs);
    for i := 0 to |ts|
      invariant sp.state == old(sp.state) && sv.state == old(sv.state) && QsOk(sp, sv, pred.DP())
      invariant ProductsChecked(sv.delta, ts, ss, n, f, rs, ks, xs, cs, i, sp.checked, sv.checked)
      invariant j == Times(i, n) && ok && forall u :: 0 <= u < i ==> Truncates(ts[u].0.x, ts[u].1.x, ts[u].2.x, k, f)
    {
      NextTimes(i, n);
      ok, cs := RunNextTriple(sp, sv, pred, ts, ss, k, f, rs, ks, xs, pows, j, i, cs);
      if !ok {
        return;
      }
      j := j + n;
    }
  }

  /** Multiplication i, with its own random bits. */
  method RunNextTriple(sp: QSStateProver<Fp>, sv: QSStateVerifier<Fp>, ghost pred: Pred, ts: seq<FpTripleP>,
                       ss: seq<FpTripleV>, k: nat, f: nat, rs: seq<seq<Fp>>, ks: seq<HdKey<Fp>>, ghost xs: seq<Fp>,
                       pows: seq<Fp>, j: nat, i: nat, cs: seq<bool>) returns (ok: bool, cs': seq<bool>)
    requires QsOk(sp, sv, pred.DP()) && sp.r == FP && AuthTriples(FP, sv.delta, ts, ss) && k + f > 0 && i < |ts|
    requires HdBitsOk(pred, sv.delta, rs, ks, xs) && |rs| == Times(|ts|, k + 2 * f) && j == Times(i, k + 2 * f)
    requires |pows| >= k + 2 * f && forall u :: 0 <= u < |pows| ==> pows[u] == ToFp(Pow2(u))
    requires ProductsChecked(sv.delta, ts, ss, k + 2 * f, f, rs, ks, xs, cs, i, sp.checked, sv.checked)
    modifies sp, sp.state, sv, sv.state
    ensures sp.state == old(sp.state) && sv.state == old(sv.state)
    ensures ok <==> Truncates(ts[i].0.x, ts[i].1.x, ts[i].2.x, k, f)
    ensures ok ==>
      && QsOk(sp, sv, pred.DP())
      && ProductsChecked(sv.delta, ts, ss, k + 2 * f, f, rs, ks, xs, cs', i + 1, sp.checked, sv.checked)
  {
    hide QsOk, AuthTriple, HdBitsOk, Truncates, ToFp, Pow2, IsPrime, Times, ProductsChecked, TriplePolys, TripleKeys,
         CorrectedBits, BoolBits, FpMul, FP;
    ghost var n, polys, keys := k + 2 * f, sp.checked, sv.checked;
    TripleAt(sv.delta, ts, ss, i);
    BitsOf(pred, sv.delta, rs, ks, xs, |ts|, n, i);
    var c;
    ok,
    c := RunTriple(sp, sv, pred, ts[i], ss[i], k, f, rs[j..j + k + 2 * f], ks[j..j + k + 2 * f], xs[j..j + n], pows);
    OneProduct(sv.delta, ts, ss, n, f, rs, ks, xs, cs, i, polys, keys, c);
    cs' := cs + c;
  }

  lemma TripleAt(delta: Fp, ts: seq<FpTripleP>, ss: seq<FpTripleV>, i: nat)
    requires AuthTriples(FP, delta, ts, ss) && i < |ts|
    ensures |ts| == |ss| && AuthTriple(FP, delta, ts[i], ss[i])
  {
  }

  lemma BitsOf(pred: Pred, delta: Fp, rs: seq<seq<Fp>>, ks: seq<HdKey<Fp>>, xs: seq<Fp>, m: nat, n: nat, t: nat)
    requires HdBitsOk(pred, delta, rs, ks, xs) && |rs| == Times(m, n) && t < m
    ensures |rs| == |ks| == |xs| && Times(t, n) + n <= |rs|
    ensures Part(rs, Times(t, n), n) == rs[Times(t, n)..Times(t, n) + n]
    ensures Part(ks, Times(t, n), n) == ks[Times(t, n)..Times(t, n) + n]
    ensures Part(xs, Times(t, n), n) == xs[Times(t, n)..Times(t, n) + n]
    ensures HdBitsOk(pred, delta, rs[Times(t, n)..Times(t, n) + n], ks[Times(t, n)..Times(t, n) + n],
                     xs[Times(t, n)..Times(t, n) + n])
  {
    hide HdBitOk;
    TimesMonotone(t + 1, m, n);
    NextTimes(t, n);
  }

  /** `estimate_voles` of the multiplications. */
  function EstimateFpVoles(pred: Pred, seedLength: nat, outputLength: nat, degree: nat, n: nat, k: nat, f: nat): nat
    requires outputLength > seedLength
  {
    if n == 0 then 0
    else
      var per := outputLength - seedLength;
      var expansions := (n * (k + 2 * f) + per - 1) / per;
      expansions * (seedLength + degree) + (pred.DP() - 1) * degree
  }

  /** What the reseedings and the final check take, with `count` outputs of the expansion used before. */
  function SpentSeededFp(pred: Pred, seedLength: nat, outputLength: nat, degree: nat, count: nat, n: nat, k: nat,
                         f: nat): nat
    requires outputLength > seedLength
  {
    Times(Reseeds(outputLength - seedLength, count, Times(n, k + 2 * f)),
          SeedCost(seedLength, degree)) + CheckCost(pred.DP(), degree)
  }

  function SpentFp(pred: Pred, seedLength: nat, outputLength: nat, degree: nat, n: nat, k: nat, f: nat): nat
    requires outputLength > seedLength
  {
    SeedCost(seedLength, degree) + SpentSeededFp(pred, seedLength, outputLength, degree, 0, n, k, f)
  }

  lemma OneMore(a: nat, b: nat)
    ensures (a + 1) * b == a * b + b
  {
  }

  lemma EstimateFpExact(pred: Pred, seedLength: nat, outputLength: nat, degree: nat, n: nat, k: nat, f: nat)
    requires outputLength > seedLength && n > 0 && k + f > 0
    ensures EstimateFpVoles(pred, seedLength, outputLength, degree, n, k, f)
         == SpentFp(pred, seedLength, outputLength, degree, n, k, f)
  {
    hide Reseeds, Times;
    var per, b := outputLength - seedLength, k + 2 * f;
    TimesIsProduct(n, b);
    SomeChecked(n, b);
    ReseedsExact(per, Times(n, b));
    var again := Reseeds(per, 0, Times(n, b));
    TimesIsProduct(again, SeedCost(seedLength, degree));
    TimesIsProduct(pred.DP() - 1, degree);
    TimesIsProduct(1, degree);
    OneMore(again, seedLength + degree);
  }

  /** What is sent for a batch: the messages of the reseedings, the corrections, and the final message. */
  datatype FpProof = FpProof(seeds: seq<seq<Fp>>, cs: seq<bool>, proof: seq<Fp>)

  /** The corrections are those of the products' own bits, and the message is about exactly the checks they make. */
  ghost predicate FpChecksTraced<F>(s: Stock<F>, chi: Fp, ts: seq<FpTripleP>, n: nat, f: nat, rs: seq<seq<Fp>>,
                                    xs: seq<Fp>, cs: seq<bool>, proof: seq<Fp>)
  {
    && |cs| == Times(|ts|, n) && ProductBits(ts, n, xs, cs, |ts|)
    && proof == DeliveredProof(FP, s.basisP, s.sp, s.up, chi, FpPolys(ts, n, f, rs, cs, |ts|))
  }

  lemma FpTracedFrom<F>(s: Stock<F>, delta: Fp, chi: Fp, ts: seq<FpTripleP>, ss: seq<FpTripleV>, n: nat, f: nat,
                        rs: seq<seq<Fp>>, ks: seq<HdKey<Fp>>, xs: seq<Fp>, cs: seq<bool>, polys: seq<seq<Fp>>,
                        keys: seq<HdKey<Fp>>, proof: seq<Fp>)
    requires ProductsChecked(delta, ts, ss, n, f, rs, ks, xs, cs, |ts|, polys, keys)
    requires proof == DeliveredProof(FP, s.basisP, s.sp, s.up, chi, polys)
    ensures FpChecksTraced(s, chi, ts, n, f, rs, xs, cs, proof)
  {
    hide DeliveredProof, FpPolys, FpKeys, ProductBits, Times;
  }

  lemma CheckedCount(delta: Fp, ts: seq<FpTripleP>, ss: seq<FpTripleV>, n: nat, f: nat, rs: seq<seq<Fp>>,
                     ks: seq<HdKey<Fp>>, xs: seq<Fp>, cs: seq<bool>, polys: seq<seq<Fp>>, keys: seq<HdKey<Fp>>)
    requires ProductsChecked(delta, ts, ss, n, f, rs, ks, xs, cs, |ts|, polys, keys)
    ensures |polys| == 2 * |ts|
  {
    hide FpPolys, FpKeys, ProductBits, Times;
  }

  /** The end of a check of multiplications. */
  method RunFpFinish<F>(p: FComProver<Fp>, v: FComVerifier<Fp>, sp: QSStateProver<Fp>, sv: QSStateVerifier<Fp>,
                        ghost pred: Pred, ghost s: Stock<F>, ghost chi: Fp, ghost ts: seq<FpTripleP>,
                        ghost ss: seq<FpTripleV>, ghost n: nat, ghost f: nat, ghost rs: seq<seq<Fp>>,
                        ghost ks: seq<HdKey<Fp>>, ghost xs: seq<Fp>, ghost cs: seq<bool>) returns (proof: seq<Fp>)
    requires Linked(p, v) && p.r == sp.r == FP && sv.delta == v.delta && sp.chi == chi && QsOk(sp, sv, pred.DP())
    requires ProductsChecked(v.delta, ts, ss, n, f, rs, ks, xs, cs, |ts|, sp.checked, sv.checked) && ts != []
    requires s.basisP == p.basis && s.sp == p.supply && s.up == p.used
    modifies p, v, sp, sv
    ensures Linked(p, v) && FpChecksTraced(s, chi, ts, n, f, rs, xs, cs, proof)
    ensures p.used == old(p.used) + CheckCost(pred.DP(), |p.basis|)
    ensures v.used == old(v.used) + CheckCost(pred.DP(), |p.basis|)
  {
    hide QsOk, Linked, FP, ProductsChecked, FpChecksTraced, DeliveredProof, Times;
    ghost var polys, keys := sp.checked, sv.checked;
    CheckedCount(v.delta, ts, ss, n, f, rs, ks, xs, cs, polys, keys);
    var ok;
    ok, proof := RunFinish(sp, sv, pred.DP(), p, v);
    FpTracedFrom(s, v.delta, chi, ts, ss, n, f, rs, ks, xs, cs, polys, keys, proof);
  }

  method RunFpChecks<F(!new, ==)>(p: CheddaProver<F>, v: CheddaVerifier<F>, chi: Fp, ts: seq<FpTripleP>,
                                  ss: seq<FpTripleV>, k: nat, f: nat, rs: seq<seq<Fp>>, ks: seq<HdKey<Fp>>,
                                  ghost xs: seq<Fp>) returns (ok: bool, cs: seq<bool>, proof: seq<Fp>)
    requires Wired(p, v) && ts != [] && AuthTriples(FP, v.fcomP.delta, ts, ss) && k + f > 0
    requires HdBitsOk(p.prg.pred, v.fcomP.delta, rs, ks, xs) && |rs| == Times(|ts|, k + 2 * f)
    modifies p.fcomP, v.fcomP
    ensures Wired(p, v) && (ok <==> AllTruncate(ts, k, f))
    ensures ok ==> FpChecksTraced(old(StockOf(p.fcom2, p.fcomP)), chi, ts, k + 2 * f, f, rs, xs, cs, proof)
    ensures ok ==> UsedBy(p, v) == old(UsedBy(p, v)).Plus(0, CheckCost(p.prg.pred.DP(), |p.fcomP.basis|))
  {
    hide Wired, AuthTriples, HdBitsOk, Times, QsOk, Pow2, Linked, DrawsBits, IsBinary, IsRing, IsPrime, AllTruncate, FP,
         ProductsChecked, FpChecksTraced, DeliveredProof;
    WiredParts(p, v);
    ghost var s, u := StockOf(p.fcom2, p.fcomP), UsedBy(p, v);
    UsedParts(p, v);
    hide UsedBy, Used.Plus;
    proof := [];
    var sp, sv := RunNewCheck(p.fcomP, v.fcomP, chi, p.prg.pred.DP());
    ok, cs := RunTriples(sp, sv, p.prg.pred, ts, ss, k, f, rs, ks, xs);
    if ok {
      proof := RunFpFinish(p.fcomP, v.fcomP, sp, sv, p.prg.pred, s, chi, ts, ss, k + 2 * f, f, rs, ks, xs, cs);
      UsedIs(p, v, u, 0, CheckCost(p.prg.pred.DP(), |p.fcomP.basis|));
    }
    Rewired(p, v);
  }

  /** The batch is checked with the next random bits of the feed, k + 2f for each multiplication. */
  ghost predicate FpMultTraced<F>(g: LocalPrg, f: Feed<F>, bits: nat -> seq<bool>, chis: nat -> Fp, chi: Fp,
                                  ts: seq<FpTripleP>, k: nat, frac: nat, t: FpProof)
    requires g.outputLength > g.seedLength
  {
    var n := Times(|ts|, k + 2 * frac);
    var rs := FedBits(g, f, bits, n);
    && t.seeds == FedBitProofs(g, f, bits, chis, n)
    && FpChecksTraced(BitsFedAfter(g, f, bits, n).stock, chi, ts, k + 2 * frac, frac, rs, Tops(rs), t.cs, t.proof)
  }

  /** The clear values of random bits. */
  ghost function Tops(rs: seq<seq<Fp>>): (xs: seq<Fp>)
    ensures |xs| == |rs|
  {
    seq(|rs|, i requires 0 <= i < |rs| => if rs[i] == [] then 0 else Value(rs[i]))
  }

  lemma TopsAre(pred: Pred, delta: Fp, rs: seq<seq<Fp>>, ks: seq<HdKey<Fp>>, xs: seq<Fp>)
    requires HdBitsOk(pred, delta, rs, ks, xs)
    ensures xs == Tops(rs)
  {
    hide Eval;
    forall i | 0 <= i < |rs| ensures xs[i] == Tops(rs)[i] {
      BitParts(pred, delta, rs, ks, xs, i);
    }
  }

  /** A batch that is not empty, once there is a seed. */
  method RunSeededFp<F(!new, ==)>(p: CheddaProver<F>, v: CheddaVerifier<F>, bits: nat -> seq<bool>, chis: nat -> Fp,
                                  chi: Fp, ts: seq<FpTripleP>, ss: seq<FpTripleV>, k: nat,
                                  f: nat) returns (ok: bool, trace: FpProof)
    requires Ready(p, v) && (forall i :: |bits(i)| == p.prg.seedLength) && p.seedP != [] && ts != []
    requires AuthTriples(FP, v.fcomP.delta, ts, ss) && k + f > 0
    modifies p, p.prg, p.fcomP, v, v.prg, v.fcomP
    ensures Ready(p, v) && p.prg.outputLength > p.prg.seedLength
    ensures ok <==> k + 2 * f <= CeilLog2(P) && AllTruncate(ts, k, f)
    ensures ok ==> FpMultTraced(p.prg, old(FeedOf(p)), bits, chis, chi, ts, k, f, trace)
    ensures ok ==>
              var n := SpentSeededFp(p.prg.pred, p.prg.seedLength, p.prg.outputLength, |p.fcomP.basis|,
                                     old(p.prg.count), |ts|, k, f);
              UsedBy(p, v) == old(UsedBy(p, v)).Plus(0, n)
  {
    hide Wired, SeedState, AuthTriples, HdBitsOk, Times, Reseeds, CountAfter, SeedCost, CheckCost, AllTruncate, Ready,
         CeilLog2, IsPrime, FP, FpChecksTraced, FedBits, FedBitProofs, BitsFedAfter, Tops;
    ReadyCapacity(p, v);
    ghost var feed := FeedOf(p);
    trace := FpProof([], [], []);
    var rs, ks, seeds;
    ghost var xs;
    rs, ks, xs, seeds := RunGenBits(p, v, bits, chis, Times(|ts|, k + 2 * f));
    TopsAre(p.prg.pred, v.fcomP.delta, rs, ks, xs);
    if k + 2 * f > CeilLog2(P) {
      return false, trace;
    }
    ReadyParts(p, v);
    RoomLeft(p, v);
    var cs, proof;
    ok, cs, proof := RunFpChecks(p, v, chi, ts, ss, k, f, rs, ks, xs);
    trace := FpProof(seeds, cs, proof);
    StillReady(p, v);
  }

  /** A feed with seeds over the prime field, made now if there are none. */
  ghost function SeededFpFeed<F>(g: LocalPrg, f: Feed<F>, bits: seq<bool>): Feed<F> {
    if f.seedP == [] then FpSeeded(g, f, bits) else f
  }

  /** `verify_fp_mult`, from any reachable state. It asserts that an element of the field has k + 2f bits to decompose
      into; then it is accepted exactly when every triple is a truncated product. From a start without a seed it takes
      exactly what was estimated, and an empty batch takes nothing. */
  method RunVerifyFpMult<F(!new, ==)>(p: CheddaProver<F>, v: CheddaVerifier<F>, bits: nat -> seq<bool>, chis: nat -> Fp,
                                      chi: Fp, ts: seq<FpTripleP>, ss: seq<FpTripleV>, k: nat,
                                      f: nat) returns (ok: bool, first: Option<seq<Fp>>, trace: FpProof)
    requires Ready(p, v) && (forall i :: |bits(i)| == p.prg.seedLength)
    requires AuthTriples(FP, v.fcomP.delta, ts, ss) && k + f > 0
    modifies p, p.prg, p.fcomP, v, v.prg, v.fcomP
    ensures Ready(p, v) && (ok <==> ts == [] || (k + 2 * f <= CeilLog2(P) && AllTruncate(ts, k, f)))
    ensures ts == [] ==> UsedBy(p, v) == old(UsedBy(p, v)) && FeedOf(p) == old(FeedOf(p))
    ensures ts != [] ==>
      first == if old(p.seedP) == [] then Some(FpSeedProof(p.prg, old(FeedOf(p)), bits(0), chis(0))) else None
    ensures ok && ts != [] ==>
      && p.prg.outputLength > p.prg.seedLength
      && FpMultTraced(p.prg, SeededFpFeed(p.prg, old(FeedOf(p)), bits(0)), bits, chis, chi, ts, k, f, trace)
    ensures ok && ts != [] && old(p.seedP) == [] ==>
              p.prg.outputLength > p.prg.seedLength
              && var n := SpentFp(p.prg.pred, p.prg.seedLength, p.prg.outputLength, |p.fcomP.basis|, |ts|, k, f);
                 UsedBy(p, v) == old(UsedBy(p, v)).Plus(0, n)
  {
    hide AuthTriples, Times, Reseeds, SeedCost, CheckCost, IsPrime, Values, Ready, AllTruncate, CeilLog2, BitsFp, FP,
         FpMultTraced, FpSeeded, FpSeedProof, StockOf;
    first, trace := None, FpProof([], [], []);
    if ts == [] {
      return true, first, trace;
    }
    if p.seedP == [] {
      var proof := RunSeedFpOnly(p, v, bits(0), chis(0));
      first := Some(proof);
    }
    ok, trace := RunSeededFp(p, v, bits, chis, chi, ts, ss, k, f);
  }
}
