/** The two-peer edaBit protocol over the generator's daBits: groups of daBits become clear edaBits, which their owner
    embeds with a zero share for the other peer, proves against the daBits they came from, and combines as before. */
module MpcCheddaEdabits {
  import opened Options
  import opened Arith
  import opened Rings
  import opened PrimeField
  import opened Bits
  import opened Homcom
  import opened HdValues
  import opened Fdabit
  import opened FdabitRun
  import opened EdabitConversion
  import opened EdabitConversionRun
  import opened Shares
  import opened MpcCombine
  import opened MpcEdabits
  import opened CheddaBits
  import opened CheddaChecks
  import opened CheddaConv
  import opened CheddaLists
  import opened CheddaConvRun

  // ---- the source of daBits ----

  /** The feed that n daBits are taken from: a first seed is drawn when there is none, unless nothing is asked for. */
  ghost function Start<F>(g: LocalPrg, f: Feed<F>, n: nat): Feed<F> {
    if n == 0 then f else SeededFeed(f, g.seedLength)
  }

  ghost function StreamOf<F>(f: Feed<F>): Stream<F> {
    Stream(Values(f.seed2), f.count)
  }

  /** The n bits that a feed gives, after a first seed if there is none. */
  ghost function BitsFrom<F>(g: LocalPrg, f: Feed<F>, n: nat): (xs: seq<F>)
    requires g.outputLength > g.seedLength
    ensures |xs| == n
  {
    StreamBits(g, f.stock.r, StreamOf(Start(g, f, n)), n)
  }

  /** What is sent on the way: the messages of a first seed, and those of the reseedings. */
  datatype SourceTrace<F> = SourceTrace(first: Option<DabitTrace<F>>, seeds: seq<SeedProof<F>>)

  ghost predicate SourceTraced<F>(g: LocalPrg, f: Feed<F>, inputs: SeedInputs<F>, chis: nat -> (F, Fp), n: nat,
                                  t: SourceTrace<F>)
    requires g.outputLength > g.seedLength
  {
    && t.seeds == FedProofs(g, Start(g, f, n), chis, n)
    && if n == 0 || f.seed2 != [] then t.first == None
       else
         && t.first.Some?
         && DabitsTraced(f.stock, inputs.chi, g.seedLength, inputs.sampled, inputs.es, t.first.value)
  }

  /** What a source gives: the next n daBits of the feed, with the messages on the way; `next` is the feed after it. */
  ghost predicate Sourced<F>(g: LocalPrg, f: Feed<F>, inputs: SeedInputs<F>, chis: nat -> (F, Fp), n: nat,
                             next: Feed<F>, ps: seq<HdDabitP<F>>, t: SourceTrace<F>)
    requires g.outputLength > g.seedLength
  {
    && ps == FedDabits(g, Start(g, f, n), n) && next == FedAfter(g, Start(g, f, n), n)
    && SourceTraced(g, f, inputs, chis, n, t)
  }

  lemma NothingSourced<F>(g: LocalPrg, f: Feed<F>, inputs: SeedInputs<F>, chis: nat -> (F, Fp))
    requires g.outputLength > g.seedLength
    ensures Sourced(g, f, inputs, chis, 0, f, [], SourceTrace(None, []))
  {
  }

  lemma SourcedFrom<F>(g: LocalPrg, f: Feed<F>, inputs: SeedInputs<F>, chis: nat -> (F, Fp), n: nat, start: Feed<F>,
                       first: Option<DabitTrace<F>>, next: Feed<F>, ps: seq<HdDabitP<F>>, seeds: seq<SeedProof<F>>)
    requires g.outputLength > g.seedLength && n > 0
    requires f.seed2 == [] ==>
      && start == FirstFeed(f, g.seedLength) && first.Some?
      && DabitsTraced(f.stock, inputs.chi, g.seedLength, inputs.sampled, inputs.es, first.value)
    requires f.seed2 != [] ==> start == f && first == None
    requires ps == FedDabits(g, start, n) && next == FedAfter(g, start, n) && seeds == FedProofs(g, start, chis, n)
    ensures start == Start(g, f, n) && Sourced(g, f, inputs, chis, n, next, ps, SourceTrace(first, seeds))
  {
    hide FedDabits, FedAfter, FedProofs, DabitsTraced, FirstFeed;
  }

  lemma BitsAre<F>(g: LocalPrg, f: Feed<F>, n: nat, start: Feed<F>)
    requires g.outputLength > g.seedLength && start == Start(g, f, n) && start.stock.r == f.stock.r
    ensures BitsFrom(g, f, n) == StreamBits(g, f.stock.r, Stream(Values(start.seed2), start.count), n)
  {
    hide StreamBits, Values, Start;
  }

  /** Any number of daBits, after a first seed if there is none: their bits are those of the stream that starts
      there. */
  method RunSource<F(!new, ==)>(p: CheddaProver<F>, v: CheddaVerifier<F>, inputs: SeedInputs<F>, chis: nat -> (F, Fp),
                                n: nat)
    returns (ps: seq<HdDabitP<F>>, vs: seq<HdDabitV<F>>, ok: bool, trace: SourceTrace<F>)
    requires CheddaConv.Ready(p, v) && SeedInputsOk(inputs, p.prg.seedLength)
    modifies p, p.prg, p.fcom2, p.fcomP, v, v.prg, v.fcom2, v.fcomP
    ensures CheddaConv.Ready(p, v) && p.prg.outputLength > p.prg.seedLength
    ensures n == 0 || old(p.seed2) != [] || SafeSamples(p.prg.seedLength, inputs.sampled) ==> ok
    ensures ok ==> |ps| == n && Sourced(p.prg, old(FeedOf(p)), inputs, chis, n, FeedOf(p), ps, trace)
    ensures ok ==>
      HdDabitsOk(p.prg.pred, p.fcom2.r, v.fcom2.delta, v.fcomP.delta, ps, vs, BitsFrom(p.prg, old(FeedOf(p)), n))
  {
    hide Wired, SeedState, HdDabitOk, SeedInputsOk, CheckParamsV1, SafeSamples, Times, Reseeds, CountAfter, VolesV1,
         ReseedCost, CheckCost, After, Values, CheddaConv.Ready, FeedOf, UsedBy, Used.Plus, StreamBits, FedDabits,
         FedAfter, FedProofs, Sourced, DabitsTraced, FirstFeed, NextFeed, NextProof, BitsFrom, StockOf, Start, FP;
    ReadyCapacity(p, v);
    ghost var f, r := FeedOf(p), p.fcom2.r;
    FeedParts(p);
    ps, vs, ok, trace := [], [], true, SourceTrace(None, []);
    if n == 0 {
      NothingSourced(p.prg, f, inputs, chis);
      NoBits(p.prg, f, v.fcom2.delta, v.fcomP.delta);
      return;
    }
    var first := None;
    if p.seed2 == [] {
      var (c2, cp) := chis(0);
      var sent;
      ok, sent := RunGenSeed(p, v, inputs, c2, cp);
      if !ok {
        return;
      }
      first := Some(sent.dabits);
    }
    ghost var start := FeedOf(p);
    FeedParts(p);
    ghost var xs;
    var seeds;
    ps, vs, xs, seeds := RunGenDabits(p, v, inputs, chis, n);
    SourcedFrom(p.prg, f, inputs, chis, n, start, first, FeedOf(p), ps, seeds);
    BitsAre(p.prg, f, n, start);
    trace := SourceTrace(first, seeds);
  }

  lemma NoBits<F>(g: LocalPrg, f: Feed<F>, d2: F, dp: Fp)
    requires g.outputLength > g.seedLength
    ensures HdDabitsOk(g.pred, f.stock.r, d2, dp, [], [], BitsFrom(g, f, 0))
  {
    hide HdDabitOk;
  }

  // ---- daBits to clear edaBits ----

  /** Edabit i consists of the i-th group of k bits and their number. */
  ghost predicate Grouped<F>(r: Ring<F>, k: nat, n: nat, xs: seq<F>, bits: seq<seq<F>>, values: seq<Fp>) {
    && |xs| == Times(n, k) && |bits| == |values| == n
    && forall i :: 0 <= i < n ==> bits[i] == Chunk(xs, k, n, i) && values[i] == ToFp(BitsValue(r, bits[i]))
  }

  /** `prover_dabits_to_clear_edabits_generic` */
  method ToClearEdabits<F(!new, ==)>(r: Ring<F>, ps: seq<HdDabitP<F>>, k: nat, n: nat,
                                     ghost pred: Pred, ghost d2: F, ghost dp: Fp, ghost vs: seq<HdDabitV<F>>,
                                     ghost xs: seq<F>)
    returns (bits: seq<seq<F>>, values: seq<Fp>)
    requires IsBinary(r) && HdDabitsOk(pred, r, d2, dp, ps, vs, xs) && |ps| == Times(n, k)
    ensures ClearBatch(r, bits, values, k) && Grouped(r, k, n, xs, bits, values)
  {
    hide IsBinary, Hd, IsBit, BitNat, ToFp, BitsValue, Times;
    var flat, _ := SeedValues(r, ps, pred, d2, dp, vs, xs);
    bits, values := [], [];
    var offset := 0;
    NoTimes(k);
    for i := 0 to n
      invariant offset == Times(i, k) && |bits| == |values| == i && |flat| == |xs| == Times(n, k)
      invariant forall j :: 0 <= j < i ==> bits[j] == Chunk(xs, k, n, j) && values[j] == ToFp(BitsValue(r, bits[j]))
    {
      TimesMonotone(i + 1, n, k);
      NextTimes(i, k);
      var row := flat[offset..offset + k];
      var value := ConvertBitsToField(r, row);
      bits, values := bits + [row], values + [value];
      offset := offset + k;
    }
    GroupsAreBits(r, k, n, pred, d2, dp, ps, vs, xs, bits, values);
  }

  lemma GroupsAreBits<F(!new)>(r: Ring<F>, k: nat, n: nat, pred: Pred, d2: F, dp: Fp, ps: seq<HdDabitP<F>>,
                               vs: seq<HdDabitV<F>>, xs: seq<F>, bits: seq<seq<F>>, values: seq<Fp>)
    requires HdDabitsOk(pred, r, d2, dp, ps, vs, xs) && Grouped(r, k, n, xs, bits, values)
    ensures ClearBatch(r, bits, values, k)
  {
    hide Hd, IsBit, BitNat, ToFp, BitsValue, Times;
    forall i, j | 0 <= i < n && 0 <= j < k ensures IsBit(r, bits[i][j]) {
      TimesMonotone(i + 1, n, k);
      NextTimes(i, k);
      assert HdDabitOk(pred, r, d2, dp, ps[Times(i, k) + j], vs[Times(i, k) + j], xs[Times(i, k) + j]);
    }
  }

  // ---- the owner's embedding ----

  /** The owner's halves hold the clear edaBits; the other peer's halves hold zeros only. */
  ghost predicate Embedded<F>(r: Ring<F>, bits: seq<seq<F>>, values: seq<Fp>, xs: seq<SharedEdabit<F>>,
                              ys: seq<SharedEdabit<F>>) {
    && |xs| == |ys| == |bits| == |values|
    && forall i :: 0 <= i < |xs| ==>
         OwnerHolds(r, bits[i], xs[i].bits, ys[i].bits) && OwnerHolds(FP, [values[i]], [xs[i].value], [ys[i].value])
  }

  lemma EmbeddedRow<F(!new)>(r: Ring<F>, k: nat, bits: seq<seq<F>>, fa: seq<Share<F>>, fb: seq<Share<F>>, i: nat)
    requires i < |bits| && forall j :: 0 <= j < |bits| ==> |bits[j]| == k
    requires OwnerHolds(r, Flatten(bits), fa, fb) && |fa| == Times(|bits|, k)
    ensures OwnerHolds(r, bits[i], Chunk(fa, k, |bits|, i), Chunk(fb, k, |bits|, i))
  {
    hide Flatten, Times;
    TimesMonotone(i + 1, |bits|, k);
    NextTimes(i, k);
    FlattenSlice(bits, k, i);
    var lo := Times(i, k);
    forall j | 0 <= j < k ensures bits[i][j] == Flatten(bits)[lo + j] {
      assert Flatten(bits)[lo..lo + k][j] == Flatten(bits)[lo + j];
    }
  }

  /** The owner's parts: the bits and values, committed with the next values of its stock. */
  ghost function OwnEdabits<F>(s: Stock<F>, k: nat, rows: seq<seq<F>>, values: seq<Fp>): (es: seq<EdabitP<F>>)
    requires |rows| == |values|
    ensures |es| == |rows|
  {
    var flat := CommitAll(Flatten(rows), s.Binary(0, Times(|rows|, k)));
    seq(|rows|, i requires 0 <= i < |rows| =>
      EdabitP(Part(flat, Times(i, k), k), CommitAll(values, s.Prime(0, |rows|))[i]))
  }

  lemma ViewsOwned<F(!new)>(s: Stock<F>, k: nat, rows: seq<seq<F>>, values: seq<Fp>, fa: seq<Share<F>>,
                            va: seq<Share<Fp>>, xs: seq<SharedEdabit<F>>)
    requires |rows| == |values| == |va| == |xs| && |fa| == Times(|rows|, k)
    requires Locals(fa) == CommitAll(Flatten(rows), s.Binary(0, |fa|))
    requires Locals(va) == CommitAll(values, s.Prime(0, |va|))
    requires forall i :: 0 <= i < |xs| ==> xs[i] == SharedEdabit(Chunk(fa, k, |rows|, i), va[i])
    ensures ProverViews(xs) == OwnEdabits(s, k, rows, values)
  {
    hide Times, Delivered, Flatten, CommitAll;
    var es, own := ProverViews(xs), OwnEdabits(s, k, rows, values);
    forall i | 0 <= i < |xs| ensures es[i] == own[i] {
      TimesMonotone(i + 1, |rows|, k);
      NextTimes(i, k);
      assert Locals(Chunk(fa, k, |rows|, i)) == Part(Locals(fa), Times(i, k), k);
      assert Locals(va)[i] == va[i].local;
    }
  }

  /** Clear edaBits, embedded and shared by their owner. */
  method RunEmbed<F(!new, ==)>(a2: Peer<F>, b2: Peer<F>, ap: Peer<Fp>, bp: Peer<Fp>, k: nat, bits: seq<seq<F>>,
                               values: seq<Fp>)
    returns (xs: seq<SharedEdabit<F>>, ys: seq<SharedEdabit<F>>)
    requires Linked(a2.local, b2.remote) && a2.local.r == b2.local.r && Linked(ap.local, bp.remote)
    requires ap.local.r == bp.local.r == FP
    requires {a2.local as object, b2.remote} !! {ap.local as object, bp.remote}
    requires ClearBatch(a2.local.r, bits, values, k)
    modifies a2.local, b2.remote, ap.local, bp.remote
    ensures Linked(a2.local, b2.remote) && Linked(ap.local, bp.remote)
    ensures Encodes(a2.local.r, a2.remote.delta, b2.remote.delta, ap.remote.delta, bp.remote.delta, k, bits, values, xs,
                    ys)
    ensures Embedded(a2.local.r, bits, values, xs, ys) && |values| == |bits|
    ensures ProverViews(xs) == OwnEdabits(old(StockOf(a2.local, ap.local)), k, bits, values)
    ensures StockOf(a2.local, ap.local) == old(StockOf(a2.local, ap.local)).After(Times(|bits|, k), |bits|)
  {
    hide Linked, Shared, Clear, IsBit, Flatten, Times, AreBits, OwnerHolds, CommitAll, Delivered, OwnEdabits,
         ProverViews, Productive, Embedded, SharedAll, Clears, Locals, Encodes;
    var r := a2.local.r;
    ghost var s := StockOf(a2.local, ap.local);
    FlattenLength(bits, k);
    var fa, fb := RunShareOwnerZero(a2, b2, Flatten(bits));
    var va, vb := RunShareOwnerZero(ap, bp, values);
    ShareLengths(r, bits, values, fa, fb, va, vb, k);
    xs := Regroup(fa, va, k);
    ys := Regroup(fb, vb, k);
    RegroupedEncodes(r, a2.remote.delta, b2.remote.delta, ap.remote.delta, bp.remote.delta, k, bits, values, fa, fb, va,
                     vb, xs, ys);
    RegroupedHeld(r, k, bits, values, fa, fb, va, vb, xs, ys);
    ViewsOwned(s, k, bits, values, fa, va, xs);
  }

  lemma ShareLengths<F>(r: Ring<F>, bits: seq<seq<F>>, values: seq<Fp>, fa: seq<Share<F>>, fb: seq<Share<F>>,
                        va: seq<Share<Fp>>, vb: seq<Share<Fp>>, k: nat)
    requires OwnerHolds(r, Flatten(bits), fa, fb) && OwnerHolds(FP, values, va, vb)
    requires forall j :: 0 <= j < |bits| ==> |bits[j]| == k
    ensures |fa| == |fb| == |Flatten(bits)| == Times(|bits|, k) && |va| == |vb| == |values|
  {
    FlattenLength(bits, k);
  }

  lemma RegroupedHeld<F(!new)>(r: Ring<F>, k: nat, bits: seq<seq<F>>, values: seq<Fp>, fa: seq<Share<F>>,
                               fb: seq<Share<F>>, va: seq<Share<Fp>>, vb: seq<Share<Fp>>, xs: seq<SharedEdabit<F>>,
                               ys: seq<SharedEdabit<F>>)
    requires |bits| == |values| && forall j :: 0 <= j < |bits| ==> |bits[j]| == k
    requires OwnerHolds(r, Flatten(bits), fa, fb) && OwnerHolds(FP, values, va, vb)
    requires |fa| == |fb| == Times(|bits|, k) && |xs| == |ys| == |bits|
    requires forall i :: 0 <= i < |xs| ==>
      xs[i] == SharedEdabit(Chunk(fa, k, |bits|, i), va[i]) && ys[i] == SharedEdabit(Chunk(fb, k, |bits|, i), vb[i])
    ensures Embedded(r, bits, values, xs, ys)
  {
    hide Flatten, Times, OwnerHolds, Chunk;
    assert |va| == |vb| == |values| by {
      SameCount(values, va, vb);
    }
    forall i | 0 <= i < |xs|
      ensures OwnerHolds(r, bits[i], xs[i].bits, ys[i].bits)
      ensures OwnerHolds(FP, [values[i]], [xs[i].value], [ys[i].value])
    {
      EmbeddedRow(r, k, bits, fa, fb, i);
      OneHeld(values, va, vb, i);
    }
  }

  lemma SameCount(values: seq<Fp>, va: seq<Share<Fp>>, vb: seq<Share<Fp>>)
    requires OwnerHolds(FP, values, va, vb)
    ensures |va| == |vb| == |values|
  {
  }

  lemma OneHeld(values: seq<Fp>, va: seq<Share<Fp>>, vb: seq<Share<Fp>>, i: nat)
    requires OwnerHolds(FP, values, va, vb) && i < |values|
    ensures OwnerHolds(FP, [values[i]], [va[i]], [vb[i]])
  {
  }

  // ---- what is proved about them ----

  /** `extract_prover_edabits`: the owner's own parts. */
  function ProverViews<F>(xs: seq<SharedEdabit<F>>): (es: seq<EdabitP<F>>)
    ensures |es| == |xs|
  {
    seq(|xs|, i requires 0 <= i < |xs| => EdabitP(Locals(xs[i].bits), xs[i].value.local))
  }

  /** `extract_verifier_edabits`: the other peer's keys. */
  function VerifierViews<F>(ys: seq<SharedEdabit<F>>): (fs: seq<EdabitV<F>>)
    ensures |fs| == |ys|
  {
    seq(|ys|, i requires 0 <= i < |ys| => EdabitV(Remotes(ys[i].bits), ys[i].value.remote))
  }

  /** The embedding turns the shares' macs into macs of the clear edaBits themselves. */
  lemma ViewsAuth<F(!new)>(r: Ring<F>, da: F, db: F, ea: Fp, eb: Fp, k: nat, bits: seq<seq<F>>, values: seq<Fp>,
                           xs: seq<SharedEdabit<F>>, ys: seq<SharedEdabit<F>>)
    requires Encodes(r, da, db, ea, eb, k, bits, values, xs, ys) && ClearBatch(r, bits, values, k)
    requires Embedded(r, bits, values, xs, ys)
    ensures AuthEdabits(r, db, eb, ProverViews(xs), VerifierViews(ys), k)
    ensures forall i :: 0 <= i < |xs| ==>
      Values(ProverViews(xs)[i].bits) == bits[i] && ProverViews(xs)[i].value.x == values[i]
  {
    hide Auth, IsBit;
    forall i | 0 <= i < |xs|
      ensures AuthEdabit(r, db, eb, ProverViews(xs)[i], VerifierViews(ys)[i]) && |ProverViews(xs)[i].bits| == k
      ensures Values(ProverViews(xs)[i].bits) == bits[i] && ProverViews(xs)[i].value.x == values[i]
    {
      assert SharedBits(r, da, db, xs[i].bits, ys[i].bits);
      SharedMacs(r, da, db, xs[i].bits, ys[i].bits);
      ViewValues(r, bits[i], xs[i].bits, ys[i].bits);
      ViewValues(FP, [values[i]], [xs[i].value], [ys[i].value]);
      assert Values(Locals([xs[i].value]))[0] == xs[i].value.local.x;
    }
  }

  lemma ViewValues<F>(r: Ring<F>, values: seq<F>, sa: seq<Share<F>>, sb: seq<Share<F>>)
    requires OwnerHolds(r, values, sa, sb)
    ensures Values(Locals(sa)) == values && |Locals(sa)| == |values|
  {
    forall i | 0 <= i < |sa| ensures Values(Locals(sa))[i] == values[i] {
      assert Locals(sa)[i] == sa[i].local;
    }
  }

  lemma ViewsConsistent<F(!new)>(r: Ring<F>, es: seq<EdabitP<F>>, bits: seq<seq<F>>, values: seq<Fp>)
    requires |es| == |bits| == |values|
    requires forall i :: 0 <= i < |es| ==> Values(es[i].bits) == bits[i] && es[i].value.x == values[i]
    ensures AllConsistent(r, es) <==> forall i :: 0 <= i < |es| ==> values[i] == ToFp(BitsValue(r, bits[i]))
  {
    hide ToFp, BitsValue;
    forall i | 0 <= i < |es| ensures TupleDiscrepancy(r, es[i]) == 0 <==> values[i] == ToFp(BitsValue(r, bits[i])) {
      DiscrepancyZero(r, bits[i], values[i]);
    }
  }

  /** `verify_edabits`: an honest run is accepted exactly when every edaBit is consistent. What is sent is about exactly
      the checks of these edaBits against these daBits. */
  method RunVerifyEdabits<F(!new, ==)>(p: CheddaProver<F>, v: CheddaVerifier<F>, chi2: F, chiP: Fp, es: seq<EdabitP<F>>,
                                       fs: seq<EdabitV<F>>, k: nat, ps: seq<HdDabitP<F>>, vs: seq<HdDabitV<F>>,
                                       ghost xs: seq<F>) returns (ok: bool, proof: ConvProof<F>)
    requires CheddaConv.Ready(p, v) && AuthEdabits(p.fcom2.r, v.fcom2.delta, v.fcomP.delta, es, fs, k)
    requires HdDabitsOk(p.prg.pred, p.fcom2.r, v.fcom2.delta, v.fcomP.delta, ps, vs, xs) && |ps| == Times(|es|, k)
    modifies p.fcom2, p.fcomP, v.fcom2, v.fcomP
    ensures CheddaConv.Ready(p, v) && (ok <==> AllConsistent(p.fcom2.r, es))
    ensures ok && es != [] ==> ChecksTraced(old(StockOf(p.fcom2, p.fcomP)), chi2, chiP, es, k, ps, xs, proof)
    ensures ok ==>
      UsedBy(p, v) == old(UsedBy(p, v)).Plus(CheckVoles(|es|, k, p.prg.pred.D2(), |p.fcom2.basis|),
                                             CheckVoles(|es|, k, p.prg.pred.DP(), |p.fcomP.basis|))
  {
    hide Wired, CheddaConv.Ready, Twins, SeedState, AuthEdabits, HdDabitsOk, AllConsistent, Times, CheckCost, FP,
         ChecksTraced, UsedBy, DegreeFor;
    ReadyParts(p, v);
    proof := ConvProof([], [], []);
    if es == [] {
      NoneInconsistent(p.fcom2.r, es);
      return true, proof;
    }
    ok, proof := RunChecks(p, v, chi2, chiP, es, fs, k, ps, vs, xs);
    StillReady(p, v);
  }

  /** What the checks of n edaBits take. */
  function CheckVoles(n: nat, k: nat, degree: nat, basis: nat): nat
    requires degree > 0
  {
    if n == 0 then 0 else CheckCost(DegreeFor(k, degree), basis)
  }

  // ---- one owner's batch ----

  /** p and v work on the owner's outbound direction of both fields. */
  ghost predicate Attached<F(!new)>(p: CheddaProver<F>, v: CheddaVerifier<F>, a2: Peer<F>, b2: Peer<F>, ap: Peer<Fp>,
                                    bp: Peer<Fp>) {
    p.fcom2 == a2.local && p.fcomP == ap.local && v.fcom2 == b2.remote && v.fcomP == bp.remote
  }

  datatype BatchInputs<!F> = BatchInputs(seeds: SeedInputs<F>, chis: nat -> (F, Fp), chi2: F, chiP: Fp)

  /** There is a seed already, or the masks sampled for a first one fit. */
  ghost predicate SeedFits<F(!new)>(seed: seq<MacProver<F>>, seedLength: nat, ins: BatchInputs<F>) {
    seed != [] || SafeSamples(seedLength, ins.seeds.sampled)
  }

  /** A batch as sampled: the two halves, the daBits on both sides, the clear edaBits. */
  datatype Batch<F> = Batch(xs: seq<SharedEdabit<F>>, ys: seq<SharedEdabit<F>>, ps: seq<HdDabitP<F>>,
                            vs: seq<HdDabitV<F>>, bits: seq<seq<F>>, values: seq<Fp>)

  /** The daBits carry the bits zs; the halves encode their groups of k, embedded with zeros. */
  ghost predicate BatchOk<F>(pred: Pred, r: Ring<F>, da: F, db: F, ea: Fp, eb: Fp, k: nat, n: nat, zs: seq<F>,
                             b: Batch<F>) {
    && |b.ps| == Times(n, k) && HdDabitsOk(pred, r, db, eb, b.ps, b.vs, zs)
    && ClearBatch(r, b.bits, b.values, k) && Grouped(r, k, n, zs, b.bits, b.values)
    && Encodes(r, da, db, ea, eb, k, b.bits, b.values, b.xs, b.ys) && Embedded(r, b.bits, b.values, b.xs, b.ys)
  }

  /** The rows of k bits that a list of bits falls into, and their numbers. */
  ghost function RowsOf<F>(zs: seq<F>, k: nat, n: nat): (rows: seq<seq<F>>)
    ensures |rows| == n
  {
    seq(n, i requires 0 <= i < n => Part(zs, Times(i, k), k))
  }

  ghost function NumbersOf<F>(r: Ring<F>, rows: seq<seq<F>>): (ns: seq<Fp>)
    ensures |ns| == |rows|
  {
    seq(|rows|, i requires 0 <= i < |rows| => ToFp(BitsValue(r, rows[i])))
  }

  lemma GroupsAre<F>(r: Ring<F>, k: nat, n: nat, zs: seq<F>, bits: seq<seq<F>>, values: seq<Fp>)
    requires Grouped(r, k, n, zs, bits, values)
    ensures bits == RowsOf(zs, k, n) && values == NumbersOf(r, bits)
  {
    hide BitsValue, ToFp, Times;
    forall i | 0 <= i < n ensures bits[i] == RowsOf(zs, k, n)[i] {
      TimesMonotone(i + 1, n, k);
      NextTimes(i, k);
    }
  }

  /** The feed that is left after a batch has been drawn from it, and embedded. */
  ghost function Embedding<F>(g: LocalPrg, f: Feed<F>, k: nat, n: nat): Feed<F>
    requires g.outputLength > g.seedLength
  {
    var fed := FedAfter(g, Start(g, f, Times(n, k)), Times(n, k));
    fed.(stock := fed.stock.After(Times(n, k), n))
  }

  /** The edaBits of a batch, as its owner commits to them. */
  ghost function BatchEdabits<F>(g: LocalPrg, f: Feed<F>, k: nat, n: nat): seq<EdabitP<F>>
    requires g.outputLength > g.seedLength
  {
    var rows := RowsOf(BitsFrom(g, f, Times(n, k)), k, n);
    OwnEdabits(FedAfter(g, Start(g, f, Times(n, k)), Times(n, k)).stock, k, rows, NumbersOf(f.stock.r, rows))
  }

  /** The batch drawn from a feed: its daBits, its edaBits with the owner's macs, and what was sent for them. */
  ghost predicate BatchDrawn<F>(g: LocalPrg, f: Feed<F>, ins: BatchInputs<F>, k: nat, n: nat, b: Batch<F>,
                                t: SourceTrace<F>)
    requires g.outputLength > g.seedLength
  {
    && b.ps == FedDabits(g, Start(g, f, Times(n, k)), Times(n, k)) && ProverViews(b.xs) == BatchEdabits(g, f, k, n)
    && SourceTraced(g, f, ins.seeds, ins.chis, Times(n, k), t)
  }

  lemma BatchFrom<F(!new)>(g: LocalPrg, f: Feed<F>, ins: BatchInputs<F>, k: nat, n: nat, fed: Feed<F>, b: Batch<F>,
                           t: SourceTrace<F>)
    requires g.outputLength > g.seedLength && |b.values| == |b.bits|
    requires Sourced(g, f, ins.seeds, ins.chis, Times(n, k), fed, b.ps, t)
    requires Grouped(f.stock.r, k, n, BitsFrom(g, f, Times(n, k)), b.bits, b.values)
    requires ProverViews(b.xs) == OwnEdabits(fed.stock, k, b.bits, b.values)
    ensures BatchDrawn(g, f, ins, k, n, b, t)
    ensures Embedding(g, f, k, n) == Feed(fed.stock.After(Times(n, k), n), fed.seed2, fed.seedP, fed.count)
  {
    hide Times, FedDabits, FedAfter, Start, OwnEdabits, RowsOf, NumbersOf, BitsFrom, SourceTraced, ProverViews, Grouped;
    GroupsAre(f.stock.r, k, n, BitsFrom(g, f, Times(n, k)), b.bits, b.values);
  }

  /** An owner samples a batch and embeds it. Sampling asserts that edaBits have bits at all. */
  method RunPrivateBatch<F(!new, ==)>(p: CheddaProver<F>, v: CheddaVerifier<F>, a2: Peer<F>, b2: Peer<F>, ap: Peer<Fp>,
                                      bp: Peer<Fp>, ins: BatchInputs<F>, k: nat, n: nat)
    returns (b: Batch<F>, ok: bool, trace: SourceTrace<F>)
    requires CheddaConv.Ready(p, v) && SeedInputsOk(ins.seeds, p.prg.seedLength) && Attached(p, v, a2, b2, ap, bp)
    requires a2.local.r == b2.local.r && bp.local.r == FP
    modifies p, p.prg, a2.local, ap.local, v, v.prg, b2.remote, bp.remote
    ensures CheddaConv.Ready(p, v) && p.prg.outputLength > p.prg.seedLength
    ensures ok ==> k > 0
    ensures k > 0 && (n == 0 || SeedFits(old(p.seed2), p.prg.seedLength, ins)) ==> ok
    ensures ok ==>
      && BatchOk(p.prg.pred, a2.local.r, a2.remote.delta, b2.remote.delta, ap.remote.delta, bp.remote.delta, k, n,
                 BitsFrom(p.prg, old(FeedOf(p)), Times(n, k)), b)
      && BatchDrawn(p.prg, old(FeedOf(p)), ins, k, n, b, trace)
      && FeedOf(p) == Embedding(p.prg, old(FeedOf(p)), k, n)
  {
    hide Twins, SeedState, SeedInputsOk, HdDabitsOk, SafeSamples, Times, BitsFrom, Values, ClearBatch, Grouped,
         Encodes, Embedded, CheddaConv.Ready, Wired, FeedOf, FP, Sourced, BatchDrawn, Embedding, Linked, StockOf,
         LocalPrg.Valid, OwnEdabits, ProverViews, IsRing, IsBinary, DrawsBits;
    ReadyCapacity(p, v);
    ghost var f := FeedOf(p);
    FeedParts(p);
    b := Batch([], [], [], [], [], []);
    var ps, vs;
    ps, vs, ok, trace := RunSource(p, v, ins.seeds, ins.chis, Times(n, k));
    EmptyBatch(n, k);
    if k == 0 {
      ok := false;
    }
    if !ok {
      return;
    }
    ghost var fed, zs := FeedOf(p), BitsFrom(p.prg, f, Times(n, k));
    FeedParts(p);
    ReadyParts(p, v);
    WiredParts(p, v);
    var bits, values := ToClearEdabits(p.fcom2.r, ps, k, n, p.prg.pred, v.fcom2.delta, v.fcomP.delta, vs, zs);
    ClearCount(p.fcom2.r, k, n, zs, bits, values);
    var xs, ys := RunEmbed(a2, b2, ap, bp, k, bits, values);
    b := Batch(xs, ys, ps, vs, bits, values);
    Rewired(p, v);
    StillReady(p, v);
    BatchFrom(p.prg, f, ins, k, n, fed, b, trace);
    FeedIs(p, fed.stock.After(Times(n, k), n), fed.seed2, fed.seedP, fed.count);
  }

  lemma ClearCount<F>(r: Ring<F>, k: nat, n: nat, zs: seq<F>, bits: seq<seq<F>>, values: seq<Fp>)
    requires Grouped(r, k, n, zs, bits, values)
    ensures |bits| == |values| == n
  {
  }

  lemma EmptyBatch(n: nat, k: nat)
    ensures n == 0 ==> Times(n, k) == 0
  {
  }

  /** What is left of a stock after the proof of a batch. */
  ghost function ProofTaken<F>(g: LocalPrg, s: Stock<F>, k: nat, n: nat): Stock<F> {
    s.After(CheckVoles(n, k, g.pred.D2(), |s.basis2|), CheckVoles(n, k, g.pred.DP(), |s.basisP|))
  }

  /** The proof of a sampled batch is always accepted. */
  method RunProveBatch<F(!new, ==)>(p: CheddaProver<F>, v: CheddaVerifier<F>, a2: Peer<F>, b2: Peer<F>, ap: Peer<Fp>,
                                    bp: Peer<Fp>, ins: BatchInputs<F>, k: nat, n: nat, ghost zs: seq<F>, b: Batch<F>)
    returns (proof: ConvProof<F>)
    requires CheddaConv.Ready(p, v) && Attached(p, v, a2, b2, ap, bp)
    requires BatchOk(p.prg.pred, a2.local.r, a2.remote.delta, b2.remote.delta, ap.remote.delta, bp.remote.delta, k, n,
                     zs, b)
    modifies a2.local, ap.local, b2.remote, bp.remote
    ensures CheddaConv.Ready(p, v)
    ensures n > 0 ==>
      ChecksTraced(old(StockOf(a2.local, ap.local)), ins.chi2, ins.chiP, ProverViews(b.xs), k, b.ps, zs, proof)
    ensures StockOf(p.fcom2, p.fcomP) == ProofTaken(p.prg, old(StockOf(p.fcom2, p.fcomP)), k, n)
  {
    hide Times, HdDabitsOk, AuthEdabits, CheddaConv.Ready, ClearBatch, BatchOk, AllConsistent, ChecksTraced, FP,
         CheckVoles, ProverViews, VerifierViews;
    var es, fs := ProverViews(b.xs), VerifierViews(b.ys);
    ViewsOfBatch(p.prg.pred, a2.local.r, a2.remote.delta, b2.remote.delta, ap.remote.delta, bp.remote.delta, k, n, zs,
                 b);
    var ok;
    ok, proof := RunVerifyEdabits(p, v, ins.chi2, ins.chiP, es, fs, k, b.ps, b.vs, zs);
    assert ok;
  }

  lemma ViewsOfBatch<F(!new)>(pred: Pred, r: Ring<F>, da: F, db: F, ea: Fp, eb: Fp, k: nat, n: nat, zs: seq<F>,
                              b: Batch<F>)
    requires BatchOk(pred, r, da, db, ea, eb, k, n, zs, b)
    ensures HdDabitsOk(pred, r, db, eb, b.ps, b.vs, zs)
    ensures |b.xs| == |b.ys| == |ProverViews(b.xs)| == n && |b.ps| == Times(n, k)
    ensures AuthEdabits(r, db, eb, ProverViews(b.xs), VerifierViews(b.ys), k) && AllConsistent(r, ProverViews(b.xs))
  {
    hide Times, HdDabitsOk, AuthEdabits, ClearBatch, BitsValue, ToFp, Chunk, SharedBatch, SharedValues, OwnerHolds,
         TupleDiscrepancy, AllConsistent;
    ViewsAuth(r, da, db, ea, eb, k, b.bits, b.values, b.xs, b.ys);
    ViewsConsistent(r, ProverViews(b.xs), b.bits, b.values);
  }

  // ---- the whole protocol ----

  /** What never changes about the two peers. */
  ghost predicate Peers<F(!new)>(a2: Peer<F>, b2: Peer<F>, ap: Peer<Fp>, bp: Peer<Fp>) {
    && a2.first && !b2.first && ap.first && !bp.first
    && a2.local.r == b2.local.r && ap.local.r == bp.local.r == FP
    && a2.local != b2.local && a2.remote != b2.remote && ap.local != bp.local && ap.remote != bp.remote
    && {a2.local as object, a2.remote, b2.local, b2.remote} !! {ap.local as object, ap.remote, bp.local, bp.remote}
  }

  /** One generator for each direction. */
  ghost predicate Separate<F(!new)>(p: CheddaProver<F>, v: CheddaVerifier<F>, q: CheddaProver<F>,
                                    w: CheddaVerifier<F>) {
    p != q && v != w && {p.prg, v.prg} !! {q.prg, w.prg}
  }

  lemma PeersReady<F(!new)>(p: CheddaProver<F>, v: CheddaVerifier<F>, q: CheddaProver<F>, w: CheddaVerifier<F>,
                            a2: Peer<F>, b2: Peer<F>, ap: Peer<Fp>, bp: Peer<Fp>)
    requires CheddaConv.Ready(p, v) && CheddaConv.Ready(q, w) && Peers(a2, b2, ap, bp)
    requires Attached(p, v, a2, b2, ap, bp) && Attached(q, w, b2, a2, bp, ap)
    ensures MpcEdabits.Ready(a2, b2, ap, bp)
  {
    hide Linked, IsRing;
  }

  /** The directions of one owner, after the peers' own steps. */
  ghost predicate OneDirection<F(!new)>(a2: Peer<F>, b2: Peer<F>, ap: Peer<Fp>, bp: Peer<Fp>)
    reads a2.local, b2.remote, ap.local, bp.remote
  {
    && Linked(a2.local, b2.remote) && Linked(ap.local, bp.remote) && ap.local.r == FP && IsBinary(a2.local.r)
    && DrawsBits(a2.local)
    && {a2.local as object, b2.remote} !! {ap.local as object, bp.remote}
  }

  lemma SwapReady<F(!new)>(a2: Peer<F>, b2: Peer<F>, ap: Peer<Fp>, bp: Peer<Fp>)
    requires MpcEdabits.Ready(a2, b2, ap, bp)
    ensures OneDirection(a2, b2, ap, bp) && OneDirection(b2, a2, bp, ap)
  {
    hide Linked, IsRing;
  }

  lemma ReadyAgain<F(!new)>(p: CheddaProver<F>, v: CheddaVerifier<F>, a2: Peer<F>, b2: Peer<F>, ap: Peer<Fp>,
                            bp: Peer<Fp>)
    requires OneDirection(a2, b2, ap, bp) && Attached(p, v, a2, b2, ap, bp)
    requires Twins(p.prg, v.prg) && p.prg.count + p.prg.seedLength <= p.prg.outputLength
    requires SeedState(p.fcom2.r, v.fcom2.delta, v.fcomP.delta, p.prg.seedLength, p.seed2, v.seed2, p.seedP, v.seedP)
    ensures CheddaConv.Ready(p, v)
  {
    hide Linked, IsRing, SeedState;
    Rewired(p, v);
    StillReady(p, v);
  }

  /** What an owner sends for its batch: the messages of the source, and those of the proof. */
  datatype BatchTrace<F> = BatchTrace(source: SourceTrace<F>, proof: ConvProof<F>)

  /** The messages are about the daBits and edaBits that are drawn from the feed. */
  ghost predicate BatchTraced<F>(g: LocalPrg, f: Feed<F>, ins: BatchInputs<F>, k: nat, n: nat, t: BatchTrace<F>)
    requires g.outputLength > g.seedLength
  {
    var m := Times(n, k);
    && SourceTraced(g, f, ins.seeds, ins.chis, m, t.source)
    && (n > 0 ==>
          ChecksTraced(Embedding(g, f, k, n).stock, ins.chi2, ins.chiP, BatchEdabits(g, f, k, n), k,
                       FedDabits(g, Start(g, f, m), m), BitsFrom(g, f, m), t.proof))
  }

  /** The feed that is left after a batch has been drawn and proved. */
  ghost function Proving<F>(g: LocalPrg, f: Feed<F>, k: nat, n: nat): Feed<F>
    requires g.outputLength > g.seedLength
  {
    var e := Embedding(g, f, k, n);
    e.(stock := ProofTaken(g, e.stock, k, n))
  }

  lemma BatchProved<F>(g: LocalPrg, f: Feed<F>, ins: BatchInputs<F>, k: nat, n: nat, b: Batch<F>,
                       source: SourceTrace<F>, proof: ConvProof<F>)
    requires g.outputLength > g.seedLength && BatchDrawn(g, f, ins, k, n, b, source)
    requires n > 0 ==>
      ChecksTraced(Embedding(g, f, k, n).stock, ins.chi2, ins.chiP, ProverViews(b.xs), k, b.ps,
                   BitsFrom(g, f, Times(n, k)), proof)
    ensures BatchTraced(g, f, ins, k, n, BatchTrace(source, proof))
  {
    hide Times, SourceTraced, ChecksTraced, Embedding, BatchEdabits, FedDabits, Start, BitsFrom, ProverViews;
  }

  /** One owner's batch, drawn, then proved. */
  ghost predicate BatchMade<F>(g: LocalPrg, f: Feed<F>, ins: BatchInputs<F>, k: nat, n: nat, b: Batch<F>,
                               t: BatchTrace<F>, next: Feed<F>)
    requires g.outputLength > g.seedLength
  {
    && BatchDrawn(g, f, ins, k, n, b, t.source) && BatchTraced(g, f, ins, k, n, t) && next == Proving(g, f, k, n)
  }

  /** The proof of a batch that was drawn before. */
  method RunMadeBatch<F(!new, ==)>(p: CheddaProver<F>, v: CheddaVerifier<F>, a2: Peer<F>, b2: Peer<F>, ap: Peer<Fp>,
                                   bp: Peer<Fp>, ghost f: Feed<F>, ins: BatchInputs<F>, k: nat, n: nat, b: Batch<F>,
                                   source: SourceTrace<F>)
    returns (t: BatchTrace<F>)
    requires CheddaConv.Ready(p, v) && Attached(p, v, a2, b2, ap, bp) && p.prg.outputLength > p.prg.seedLength
    requires BatchDrawn(p.prg, f, ins, k, n, b, source) && FeedOf(p) == Embedding(p.prg, f, k, n)
    requires BatchOk(p.prg.pred, a2.local.r, a2.remote.delta, b2.remote.delta, ap.remote.delta, bp.remote.delta, k, n,
                     BitsFrom(p.prg, f, Times(n, k)), b)
    modifies a2.local, ap.local, b2.remote, bp.remote
    ensures CheddaConv.Ready(p, v) && BatchMade(p.prg, f, ins, k, n, b, t, FeedOf(p))
  {
    hide CheddaConv.Ready, BatchOk, BatchDrawn, BatchTraced, ChecksTraced, Embedding, FeedOf, StockOf, BitsFrom, Times,
         ProverViews, FP, ProofTaken;
    ghost var e := FeedOf(p);
    FeedParts(p);
    var proof := RunProveBatch(p, v, a2, b2, ap, bp, ins, k, n, BitsFrom(p.prg, f, Times(n, k)), b);
    BatchProved(p.prg, f, ins, k, n, b, source, proof);
    FeedIs(p, ProofTaken(p.prg, e.stock, k, n), e.seed2, e.seedP, e.count);
    t := BatchTrace(source, proof);
  }

  /** Both owners sample, then both prove. */
  method RunBatches<F(!new, ==)>(p: CheddaProver<F>, v: CheddaVerifier<F>, q: CheddaProver<F>, w: CheddaVerifier<F>,
                                 a2: Peer<F>, b2: Peer<F>, ap: Peer<Fp>, bp: Peer<Fp>,
                                 insA: BatchInputs<F>, insB: BatchInputs<F>, k: nat, n: nat)
    returns (b: Batch<F>, c: Batch<F>, ok: bool, tb: BatchTrace<F>, tc: BatchTrace<F>)
    requires CheddaConv.Ready(p, v) && CheddaConv.Ready(q, w) && Separate(p, v, q, w) && Peers(a2, b2, ap, bp)
    requires SeedInputsOk(insA.seeds, p.prg.seedLength) && SeedInputsOk(insB.seeds, q.prg.seedLength)
    requires Attached(p, v, a2, b2, ap, bp) && Attached(q, w, b2, a2, bp, ap)
    modifies p, p.prg, v, v.prg, q, q.prg, w, w.prg, a2.local, a2.remote, b2.local, b2.remote, ap.local, ap.remote,
             bp.local, bp.remote
    ensures CheddaConv.Ready(p, v) && CheddaConv.Ready(q, w) && p.prg.outputLength > p.prg.seedLength
    ensures q.prg.outputLength > q.prg.seedLength
    ensures ok ==> k > 0
    ensures var fits := && SeedFits(old(p.seed2), p.prg.seedLength, insA)
                        && SeedFits(old(q.seed2), q.prg.seedLength, insB);
            k > 0 && (n == 0 || fits) ==> ok
    ensures ok ==>
      && BatchOk(p.prg.pred, a2.local.r, a2.remote.delta, b2.remote.delta, ap.remote.delta, bp.remote.delta, k, n,
                 BitsFrom(p.prg, old(FeedOf(p)), Times(n, k)), b)
      && BatchMade(p.prg, old(FeedOf(p)), insA, k, n, b, tb, FeedOf(p))
    ensures ok ==>
      && BatchOk(q.prg.pred, b2.local.r, b2.remote.delta, a2.remote.delta, bp.remote.delta, ap.remote.delta, k, n,
                 BitsFrom(q.prg, old(FeedOf(q)), Times(n, k)), c)
      && BatchMade(q.prg, old(FeedOf(q)), insB, k, n, c, tc, FeedOf(q))
  {
    hide SeedInputsOk, SafeSamples, Times, BitsFrom, Values, CheddaConv.Ready, BatchOk, BatchDrawn, BatchMade,
         Embedding, FeedOf, FP, Linked, IsRing, IsBinary, SeedFits;
    ReadyCapacity(p, v);
    ReadyCapacity(q, w);
    ghost var f, g := FeedOf(p), FeedOf(q);
    c := Batch([], [], [], [], [], []);
    var sb, sc;
    tb, tc := NoBatch(), NoBatch();
    b, ok, sb := RunPrivateBatch(p, v, a2, b2, ap, bp, insA, k, n);
    if !ok {
      return;
    }
    c, ok, sc := RunPrivateBatch(q, w, b2, a2, bp, ap, insB, k, n);
    if !ok {
      return;
    }
    tb := RunMadeBatch(p, v, a2, b2, ap, bp, f, insA, k, n, b, sb);
    tc := RunMadeBatch(q, w, b2, a2, bp, ap, g, insB, k, n, c, sc);
  }

  function NoBatch<F>(): BatchTrace<F> {
    BatchTrace(SourceTrace(None, []), ConvProof([], [], []))
  }

  /** The opened edaBit i is the sum, modulo 2^k, of the i-th groups of k bits of the two streams. */
  ghost predicate Opened<F>(r: Ring<F>, k: nat, n: nat, zs: seq<F>, ys: seq<F>, xa: seq<(seq<F>, Fp)>) {
    && |zs| == |ys| == Times(n, k) && |xa| == n
    && forall i :: 0 <= i < n ==>
         var sum := (BitsValue(r, Chunk(zs, k, n, i)) + BitsValue(r, Chunk(ys, k, n, i))) % Pow2(k);
         xa[i] == (Binary(r, sum, k), ToFp(sum))
  }

  /** What is left of the first peer's stock after a combination of n edaBits, and of the second's. */
  ghost function OwnCombined<F>(s: Stock<F>, k: nat, n: nat): Stock<F> {
    var m := CombineVoles(k, n, |s.basis2|, |s.basisP|);
    s.After(m.own2, m.ownP)
  }

  ghost function PeerCombined<F>(s: Stock<F>, t: Stock<F>, k: nat, n: nat): Stock<F> {
    var m := CombineVoles(k, n, |s.basis2|, |s.basisP|);
    t.After(m.peer2, m.peerP)
  }

  /** Combining and opening two batches. */
  method RunCombineBatches<F(!new, ==)>(a2: Peer<F>, b2: Peer<F>, ap: Peer<Fp>, bp: Peer<Fp>, hash2: seq<F> -> seq<F>,
                                        hashP: seq<Fp> -> seq<Fp>, k: nat, n: nat, ins: CombineInputs<F>,
                                        ghost predA: Pred, ghost predB: Pred, ghost zs: seq<F>, ghost ys: seq<F>,
                                        b: Batch<F>, c: Batch<F>)
    returns (xa: seq<(seq<F>, Fp)>, xb: seq<(seq<F>, Fp)>, ok: bool, trace: CombineTrace<F>)
    requires MpcEdabits.Ready(a2, b2, ap, bp) && Hashes(hash2) && Hashes(hashP) && CombineShapes(k, n, ins)
    requires BatchOk(predA, a2.local.r, a2.remote.delta, b2.remote.delta, ap.remote.delta, bp.remote.delta, k, n, zs, b)
    requires BatchOk(predB, b2.local.r, b2.remote.delta, a2.remote.delta, bp.remote.delta, ap.remote.delta, k, n, ys, c)
    modifies a2.local, a2.remote, b2.local, b2.remote, ap.local, ap.remote, bp.local, bp.remote
    ensures MpcEdabits.Ready(a2, b2, ap, bp)
    ensures ok <==> n == 0 || CheckParameters(n, Gamma(n))
    ensures ok ==> xa == xb && Opened(a2.local.r, k, n, zs, ys, xa)
    ensures ok && n > 0 ==>
      CombineTraced(old(StockOf(a2.local, ap.local)), k, RowsOf(zs, k, n), RowsOf(ys, k, n), ins, trace)
    ensures ok ==>
      && StockOf(a2.local, ap.local) == OwnCombined(old(StockOf(a2.local, ap.local)), k, n)
      && StockOf(b2.local, bp.local)
         == PeerCombined(old(StockOf(a2.local, ap.local)), old(StockOf(b2.local, bp.local)), k, n)
  {
    hide Linked, IsRing, IsBinary, Paired, DrawsBits, Times, Hashes, CheckParameters, Gamma, CombineShapes, Opened,
         CombinedFrom, BatchOk, Result, Clear, ClearBits, AllCombined, SharedBatch, SharedValues, MpcEdabits.Ready,
         Encodes, CombineTraced, CombineVoles, ClearRows, RowsOf, Grouped, FP;
    ReadyRings(a2, b2, ap, bp);
    ghost var r, da, db, ea, eb := a2.local.r, a2.remote.delta, b2.remote.delta, ap.remote.delta, bp.remote.delta;
    BatchEncodes(predA, r, da, db, ea, eb, k, n, zs, b);
    BatchEncodes(predB, r, db, da, eb, ea, k, n, ys, c);
    SwapEncodes(r, db, da, eb, ea, k, c.bits, c.values, c.xs, c.ys);
    EncodesParts(r, da, db, ea, eb, k, b.bits, b.values, b.xs, b.ys);
    EncodesParts(r, da, db, ea, eb, k, c.bits, c.values, c.ys, c.xs);
    RowsAre(r, da, db, ea, eb, k, n, zs, b.bits, b.values, b.xs, b.ys);
    RowsAre(r, da, db, ea, eb, k, n, ys, c.bits, c.values, c.ys, c.xs);
    var ga, gb;
    ga, gb, trace, ok := RunCombine(a2, b2, ap, bp, hash2, hashP, k, b.xs, b.ys, c.ys, c.xs, ins);
    if !ok {
      return [], [], false, trace;
    }
    CombinedBatch(r, da, db, ea, eb, k, b.xs, b.ys, c.ys, c.xs, ga, gb);
    AllCombinedLength(r, da, db, ea, eb, k, b.xs, b.ys, c.ys, c.xs, ga, gb);
    xa, xb, ok := RunOpenEdabits(a2, b2, ap, bp, hash2, hashP, k, ga, gb);
    forall i | 0 <= i < n
      ensures xa[i] == Result(r, k, b.bits[i], b.values[i], c.bits[i], c.values[i])
    {
      EncodedAt(r, da, db, ea, eb, k, b.bits, b.values, b.xs, b.ys, i);
      EncodedAt(r, da, db, ea, eb, k, c.bits, c.values, c.ys, c.xs, i);
    }
    OpenedFrom(r, da, db, ea, eb, k, n, predA, predB, zs, ys, b, c, xa);
  }

  lemma ReadyRings<F(!new)>(a2: Peer<F>, b2: Peer<F>, ap: Peer<Fp>, bp: Peer<Fp>)
    requires MpcEdabits.Ready(a2, b2, ap, bp)
    ensures IsRing(a2.local.r) && IsBinary(a2.local.r) && a2.local.r == b2.local.r
  {
  }

  lemma BatchEncodes<F>(pred: Pred, r: Ring<F>, da: F, db: F, ea: Fp, eb: Fp, k: nat, n: nat, zs: seq<F>, b: Batch<F>)
    requires BatchOk(pred, r, da, db, ea, eb, k, n, zs, b)
    ensures Encodes(r, da, db, ea, eb, k, b.bits, b.values, b.xs, b.ys) && |b.bits| == |b.values| == n
    ensures Grouped(r, k, n, zs, b.bits, b.values)
  {
  }

  lemma RowsAre<F>(r: Ring<F>, da: F, db: F, ea: Fp, eb: Fp, k: nat, n: nat, zs: seq<F>, bits: seq<seq<F>>,
                   values: seq<Fp>, xs: seq<SharedEdabit<F>>, ys: seq<SharedEdabit<F>>)
    requires Encodes(r, da, db, ea, eb, k, bits, values, xs, ys) && Grouped(r, k, n, zs, bits, values)
    ensures ClearRows(r, xs, ys) == RowsOf(zs, k, n)
  {
    hide Encodes, Grouped, RowsOf, ClearBits, Clear;
    GroupsAre(r, k, n, zs, bits, values);
    ClearCount(r, k, n, zs, bits, values);
    EncodedCount(r, da, db, ea, eb, k, bits, values, xs, ys);
    forall i | 0 <= i < n ensures ClearRows(r, xs, ys)[i] == bits[i] {
      EncodedAt(r, da, db, ea, eb, k, bits, values, xs, ys, i);
    }
  }

  lemma EncodedCount<F>(r: Ring<F>, da: F, db: F, ea: Fp, eb: Fp, k: nat, bits: seq<seq<F>>, values: seq<Fp>,
                        xs: seq<SharedEdabit<F>>, ys: seq<SharedEdabit<F>>)
    requires Encodes(r, da, db, ea, eb, k, bits, values, xs, ys)
    ensures |xs| == |bits|
  {
  }

  lemma EncodedAt<F>(r: Ring<F>, da: F, db: F, ea: Fp, eb: Fp, k: nat, bits: seq<seq<F>>, values: seq<Fp>,
                     xs: seq<SharedEdabit<F>>, ys: seq<SharedEdabit<F>>, i: nat)
    requires Encodes(r, da, db, ea, eb, k, bits, values, xs, ys) && i < |bits|
    ensures |xs| == |ys| == |bits| == |values| && |xs[i].bits| == |ys[i].bits|
    ensures ClearBits(r, xs[i], ys[i]) == bits[i] && Clear(FP, xs[i].value, ys[i].value) == values[i]
  {
    SharedBatchLengths(r, da, db, xs, ys, k, i);
  }

  lemma OpenedFrom<F(!new)>(r: Ring<F>, da: F, db: F, ea: Fp, eb: Fp, k: nat, n: nat, predA: Pred, predB: Pred,
                            zs: seq<F>, ys: seq<F>, b: Batch<F>, c: Batch<F>, xa: seq<(seq<F>, Fp)>)
    requires BatchOk(predA, r, da, db, ea, eb, k, n, zs, b) && BatchOk(predB, r, db, da, eb, ea, k, n, ys, c)
    requires |xa| == n
    requires forall i :: 0 <= i < n ==> xa[i] == Result(r, k, b.bits[i], b.values[i], c.bits[i], c.values[i])
    ensures Opened(r, k, n, zs, ys, xa)
  {
    hide Result, BitsValue, ToFp, Binary, Pow2, Chunk, Times, Encodes, Embedded, ClearBatch, HdDabitsOk;
    forall i | 0 <= i < n
      ensures var sum := (BitsValue(r, Chunk(zs, k, n, i)) + BitsValue(r, Chunk(ys, k, n, i))) % Pow2(k);
              xa[i] == (Binary(r, sum, k), ToFp(sum))
    {
      ConsistentResult(r, k, b.bits[i], b.values[i], c.bits[i], c.values[i]);
    }
  }

  /** The same, with the generators attached: they stay ready for more. */
  method RunCombineSources<F(!new, ==)>(p: CheddaProver<F>, v: CheddaVerifier<F>, q: CheddaProver<F>,
                                        w: CheddaVerifier<F>, a2: Peer<F>, b2: Peer<F>, ap: Peer<Fp>, bp: Peer<Fp>,
                                        hash2: seq<F> -> seq<F>, hashP: seq<Fp> -> seq<Fp>, k: nat, n: nat,
                                        ins: CombineInputs<F>, ghost zs: seq<F>, ghost ys: seq<F>, b: Batch<F>,
                                        c: Batch<F>)
    returns (xa: seq<(seq<F>, Fp)>, xb: seq<(seq<F>, Fp)>, ok: bool, trace: CombineTrace<F>)
    requires CheddaConv.Ready(p, v) && CheddaConv.Ready(q, w) && Peers(a2, b2, ap, bp)
    requires Attached(p, v, a2, b2, ap, bp) && Attached(q, w, b2, a2, bp, ap)
    requires Hashes(hash2) && Hashes(hashP) && CombineShapes(k, n, ins)
    requires BatchOk(p.prg.pred, a2.local.r, a2.remote.delta, b2.remote.delta, ap.remote.delta, bp.remote.delta, k, n,
                     zs, b)
    requires BatchOk(q.prg.pred, b2.local.r, b2.remote.delta, a2.remote.delta, bp.remote.delta, ap.remote.delta, k, n,
                     ys, c)
    modifies a2.local, a2.remote, b2.local, b2.remote, ap.local, ap.remote, bp.local, bp.remote
    ensures CheddaConv.Ready(p, v) && CheddaConv.Ready(q, w)
    ensures ok <==> n == 0 || CheckParameters(n, Gamma(n))
    ensures ok ==> xa == xb && Opened(a2.local.r, k, n, zs, ys, xa)
    ensures ok && n > 0 ==>
      CombineTraced(old(FeedOf(p)).stock, k, RowsOf(zs, k, n), RowsOf(ys, k, n), ins, trace)
    ensures ok ==>
      var s, t := old(FeedOf(p)), old(FeedOf(q));
      && FeedOf(p) == Feed(OwnCombined(s.stock, k, n), s.seed2, s.seedP, s.count)
      && FeedOf(q) == Feed(PeerCombined(s.stock, t.stock, k, n), t.seed2, t.seedP, t.count)
  {
    hide CheddaConv.Ready, MpcEdabits.Ready, BatchOk, Opened, CheckParameters, Gamma, CombineShapes, Hashes, Twins,
         SeedState, Peers, Wired, LocalPrg.Valid, IsBinary, OneDirection, FeedOf, StockOf, FP, OwnCombined,
         PeerCombined, CombineTraced, RowsOf, Linked, IsRing, DrawsBits;
    PeersReady(p, v, q, w, a2, b2, ap, bp);
    PeersParts(p, q, a2, b2, ap, bp);
    ReadyParts(p, v);
    ReadyParts(q, w);
    ghost var s, t := FeedOf(p), FeedOf(q);
    FeedParts(p);
    FeedParts(q);
    xa, xb, ok, trace :=
      RunCombineBatches(a2, b2, ap, bp, hash2, hashP, k, n, ins, p.prg.pred, q.prg.pred, zs, ys, b, c);
    SwapReady(a2, b2, ap, bp);
    ReadyAgain(p, v, a2, b2, ap, bp);
    ReadyAgain(q, w, b2, a2, bp, ap);
    if ok {
      FeedIs(p, OwnCombined(s.stock, k, n), s.seed2, s.seedP, s.count);
      FeedIs(q, PeerCombined(s.stock, t.stock, k, n), t.seed2, t.seedP, t.count);
    }
  }

  lemma PeersParts<F(!new)>(p: CheddaProver<F>, q: CheddaProver<F>, a2: Peer<F>, b2: Peer<F>, ap: Peer<Fp>,
                            bp: Peer<Fp>)
    requires Peers(a2, b2, ap, bp) && p.fcom2 == a2.local && q.fcom2 == b2.local
    ensures p.fcom2.r == q.fcom2.r == a2.local.r == b2.local.r
  {
  }

  /** What both owners send for their batches, and what is sent for the combination. */
  datatype CheddaTrace<F> = CheddaTrace(own: BatchTrace<F>, peer: BatchTrace<F>, combine: CombineTrace<F>)

  /** The opened edaBits are the sums of the groups of bits that both feeds give, the proofs are about the batches drawn
      from the feeds, and the combination is one of those groups. */
  ghost predicate CheddaTraced<F>(g: LocalPrg, h: LocalPrg, f: Feed<F>, e: Feed<F>, insA: BatchInputs<F>,
                                  insB: BatchInputs<F>, ins: CombineInputs<F>, k: nat, n: nat, xs: seq<(seq<F>, Fp)>,
                                  t: CheddaTrace<F>)
    requires g.outputLength > g.seedLength && h.outputLength > h.seedLength
  {
    var zs, ys := BitsFrom(g, f, Times(n, k)), BitsFrom(h, e, Times(n, k));
    && Opened(f.stock.r, k, n, zs, ys, xs)
    && BatchTraced(g, f, insA, k, n, t.own) && BatchTraced(h, e, insB, k, n, t.peer)
    && (n > 0 ==>
          CombineTraced(Proving(g, f, k, n).stock, k, RowsOf(zs, k, n), RowsOf(ys, k, n), ins, t.combine))
  }

  lemma TracedRun<F>(g: LocalPrg, h: LocalPrg, f: Feed<F>, e: Feed<F>, fa: Feed<F>, insA: BatchInputs<F>,
                     insB: BatchInputs<F>, ins: CombineInputs<F>, k: nat, n: nat, xs: seq<(seq<F>, Fp)>,
                     t: CheddaTrace<F>)
    requires g.outputLength > g.seedLength && h.outputLength > h.seedLength && fa == Proving(g, f, k, n)
    requires BatchTraced(g, f, insA, k, n, t.own) && BatchTraced(h, e, insB, k, n, t.peer)
    requires Opened(f.stock.r, k, n, BitsFrom(g, f, Times(n, k)), BitsFrom(h, e, Times(n, k)), xs)
    requires n > 0 ==>
      CombineTraced(fa.stock, k, RowsOf(BitsFrom(g, f, Times(n, k)), k, n), RowsOf(BitsFrom(h, e, Times(n, k)), k, n),
                    ins, t.combine)
    ensures CheddaTraced(g, h, f, e, insA, insB, ins, k, n, xs, t)
  {
    hide BatchTraced, Proving, Opened, BitsFrom, Times, CombineTraced, RowsOf;
  }

  lemma MadeParts<F>(g: LocalPrg, f: Feed<F>, ins: BatchInputs<F>, k: nat, n: nat, b: Batch<F>, t: BatchTrace<F>,
                     next: Feed<F>)
    requires g.outputLength > g.seedLength && BatchMade(g, f, ins, k, n, b, t, next)
    ensures BatchTraced(g, f, ins, k, n, t) && next == Proving(g, f, k, n)
  {
    hide BatchTraced, BatchDrawn, Proving;
  }

  /** `generate_global_edabits` over the generator, then opened. It succeeds when edaBits have bits, both first seeds
      (where one is needed) come with masks that fit, and the daBit check admits the number; both peers then open, at
      every position, the sum of the two streams' numbers modulo 2^k. */
  method RunGenerate<F(!new, ==)>(p: CheddaProver<F>, v: CheddaVerifier<F>, q: CheddaProver<F>, w: CheddaVerifier<F>,
                                  a2: Peer<F>, b2: Peer<F>, ap: Peer<Fp>, bp: Peer<Fp>, hash2: seq<F> -> seq<F>,
                                  hashP: seq<Fp> -> seq<Fp>, insA: BatchInputs<F>, insB: BatchInputs<F>,
                                  ins: CombineInputs<F>, k: nat, n: nat)
    returns (xa: seq<(seq<F>, Fp)>, xb: seq<(seq<F>, Fp)>, ok: bool, trace: CheddaTrace<F>)
    requires CheddaConv.Ready(p, v) && CheddaConv.Ready(q, w) && Separate(p, v, q, w) && Peers(a2, b2, ap, bp)
    requires SeedInputsOk(insA.seeds, p.prg.seedLength) && SeedInputsOk(insB.seeds, q.prg.seedLength)
    requires Attached(p, v, a2, b2, ap, bp) && Attached(q, w, b2, a2, bp, ap)
    requires Hashes(hash2) && Hashes(hashP) && CombineShapes(k, n, ins)
    modifies p, p.prg, v, v.prg, q, q.prg, w, w.prg, a2.local, a2.remote, b2.local, b2.remote, ap.local, ap.remote,
             bp.local, bp.remote
    ensures CheddaConv.Ready(p, v) && CheddaConv.Ready(q, w) && p.prg.outputLength > p.prg.seedLength
    ensures q.prg.outputLength > q.prg.seedLength
    ensures ok ==> k > 0 && (n == 0 || CheckParameters(n, Gamma(n)))
    ensures var fits := && SeedFits(old(p.seed2), p.prg.seedLength, insA)
                        && SeedFits(old(q.seed2), q.prg.seedLength, insB);
            k > 0 && (n == 0 || (CheckParameters(n, Gamma(n)) && fits)) ==> ok
    ensures ok ==>
      xa == xb && CheddaTraced(p.prg, q.prg, old(FeedOf(p)), old(FeedOf(q)), insA, insB, ins, k, n, xa, trace)
    ensures ok ==>
      var s, t := Proving(p.prg, old(FeedOf(p)), k, n), Proving(q.prg, old(FeedOf(q)), k, n);
      && FeedOf(p) == Feed(OwnCombined(s.stock, k, n), s.seed2, s.seedP, s.count)
      && FeedOf(q) == Feed(PeerCombined(s.stock, t.stock, k, n), t.seed2, t.seedP, t.count)
  {
    hide SeedFits, SeedInputsOk, Times, BitsFrom, CheddaConv.Ready, BatchOk, Opened, CheckParameters, Gamma,
         CombineShapes, Hashes, FeedOf, CheddaTraced, BatchMade, BatchDrawn, BatchTraced, OwnCombined, PeerCombined,
         CombineTraced, RowsOf, FP, Proving, Linked, IsRing;
    ghost var f, g, r := FeedOf(p), FeedOf(q), a2.local.r;
    FeedParts(p);
    FeedParts(q);
    xa, xb := [], [];
    trace := CheddaTrace(NoBatch(), NoBatch(), MpcEdabits.NoTrace(a2.local.r));
    var b, c, tb, tc;
    b, c, ok, tb, tc := RunBatches(p, v, q, w, a2, b2, ap, bp, insA, insB, k, n);
    if !ok {
      return;
    }
    ghost var fa, fb := FeedOf(p), FeedOf(q);
    var combine;
    xa, xb, ok, combine :=
      RunCombineSources(p, v, q, w, a2, b2, ap, bp, hash2, hashP, k, n, ins, BitsFrom(p.prg, f, Times(n, k)),
                        BitsFrom(q.prg, g, Times(n, k)), b, c);
    trace := CheddaTrace(tb, tc, combine);
    if ok {
      MadeParts(p.prg, f, insA, k, n, b, tb, fa);
      MadeParts(q.prg, g, insB, k, n, c, tc, fb);
      TracedRun(p.prg, q.prg, f, g, fa, insA, insB, ins, k, n, xa, trace);
    }
  }
}
