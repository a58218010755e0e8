/** The two-peer edaBit protocol: private edaBits shared under either policy, checked triples and daBits,
    and their combination into shared edaBits that both peers open to the same result. */
module MpcEdabits {
  import opened Arith
  import opened Rings
  import opened Sums
  import opened PrimeField
  import opened Bits
  import opened Homcom
  import opened QuickSilver
  import opened Fdabit
  import opened FdabitRun
  import opened EdabitConversion
  import opened EdabitConversionRun
  import opened Shares
  import opened MpcCombine
  import Shuffle

  // ---- checked triples ----

  function EvenOnes<T>(us: seq<T>): (xs: seq<T>)
    ensures |xs| == |us| / 2
  {
    seq(|us| / 2, i requires 0 <= i < |us| / 2 => us[2 * i])
  }

  function OddOnes<T>(us: seq<T>): (ys: seq<T>)
    ensures |ys| == |us| / 2
  {
    seq(|us| / 2, i requires 0 <= i < |us| / 2 => us[2 * i + 1])
  }

  lemma NextPair<F(!new)>(p: FComProver<F>, v: FComVerifier<F>, from: nat, i: nat, x: MacProver<F>, y: MacProver<F>)
    requires Linked(p, v) && [x] == p.Voles(from + 2 * i, 1) && [y] == p.Voles(from + 2 * i + 1, 1)
    ensures EvenOnes(p.Voles(from, 2 * i + 2)) == EvenOnes(p.Voles(from, 2 * i)) + [x]
    ensures OddOnes(p.Voles(from, 2 * i + 2)) == OddOnes(p.Voles(from, 2 * i)) + [y]
  {
    hide Linked, Delivered;
    MoreVoles(p, v, from, 2 * i, 1);
    MoreVoles(p, v, from, 2 * i + 1, 1);
    var us := p.Voles(from, 2 * i);
    assert p.Voles(from, 2 * i + 2) == us + [x, y];
  }

  /** n triples made of the random values from number u on: two factors each, then all products. */
  ghost function DrawnTriples<F>(r: Ring<F>, supply: nat -> seq<MacProver<F>>, u: nat, n: nat): seq<TripleP<F>> {
    var us := Delivered(supply, u, 2 * n);
    var xs, ys := EvenOnes(us), OddOnes(us);
    ZipTriplesP(xs, ys, CommitAll(MulAll(r, xs, ys), Delivered(supply, u + 2 * n, n)))
  }

  method RunRandomPairs<F(!new, ==)>(p: FComProver<F>, v: FComVerifier<F>, n: nat)
    returns (xs: seq<MacProver<F>>, ys: seq<MacProver<F>>, xks: seq<MacVerifier<F>>, yks: seq<MacVerifier<F>>)
    requires Linked(p, v) && DrawsBits(p)
    modifies p, v
    ensures Linked(p, v) && |xs| == |ys| == n && AuthAll(p.r, v.delta, xs, xks) && AuthAll(p.r, v.delta, ys, yks)
    ensures AreBits(p.r, Values(xs)) && AreBits(p.r, Values(ys))
    ensures xs == EvenOnes(p.Voles(old(p.used), 2 * n)) && ys == OddOnes(p.Voles(old(p.used), 2 * n))
    ensures p.used == old(p.used) + 2 * n && v.used == old(v.used) + 2 * n
  {
    hide Linked, Auth, IsBit, DrawsBits;
    hide p.Voles;
    xs, ys, xks, yks := [], [], [], [];
    NoVoles(p, v);
    for i := 0 to n
      invariant Linked(p, v) && |xs| == |ys| == i && AuthAll(p.r, v.delta, xs, xks) && AuthAll(p.r, v.delta, ys, yks)
      invariant AreBits(p.r, Values(xs)) && AreBits(p.r, Values(ys))
      invariant xs == EvenOnes(p.Voles(old(p.used), 2 * i)) && ys == OddOnes(p.Voles(old(p.used), 2 * i))
      invariant p.used == old(p.used) + 2 * i && v.used == old(v.used) + 2 * i
    {
      var x, xk := RunRandom(p, v);
      var y, yk := RunRandom(p, v);
      NextPair(p, v, old(p.used), i, x, y);
      DrawnBit(p, x);
      DrawnBit(p, y);
      assert Values(xs + [x]) == Values(xs) + [x.x] && Values(ys + [y]) == Values(ys) + [y.x];
      xs, ys, xks, yks := xs + [x], ys + [y], xks + [xk], yks + [yk];
    }
  }

  /** `random_triples` by both parties. */
  method RunRandomTriples<F(!new, ==)>(p: FComProver<F>, v: FComVerifier<F>, n: nat)
    returns (ts: seq<TripleP<F>>, ss: seq<TripleV<F>>)
    requires Linked(p, v) && DrawsBits(p)
    modifies p, v
    ensures Linked(p, v) && |ts| == n && AuthTriples(p.r, v.delta, ts, ss) && AllCorrect(p.r, ts)
    ensures forall i :: 0 <= i < n ==> IsBit(p.r, ts[i].0.x) && IsBit(p.r, ts[i].1.x)
    ensures ts == DrawnTriples(p.r, p.supply, old(p.used), n)
    ensures p.used == old(p.used) + 3 * n && v.used == old(v.used) + 3 * n
  {
    hide Linked, Auth, IsBit, Delivered, EvenOnes, OddOnes;
    var xs, ys, xks, yks := RunRandomPairs(p, v, n);
    var zs, zks := RunInput(p, v, MulAll(p.r, xs, ys));
    ValuesAt(zs, MulAll(p.r, xs, ys));
    ts, ss := ZipTriplesP(xs, ys, zs), ZipTriplesV(xks, yks, zks);
    forall i | 0 <= i < n ensures IsBit(p.r, ts[i].0.x) && IsBit(p.r, ts[i].1.x) {
      assert Values(xs)[i] == xs[i].x && Values(ys)[i] == ys[i].x;
    }
  }

  function FirstValues<F>(ts: seq<TripleP<F>>): (xs: seq<F>)
    ensures |xs| == |ts|
  {
    seq(|ts|, i requires 0 <= i < |ts| => ts[i].0.x)
  }

  function SecondValues<F>(ts: seq<TripleP<F>>): (xs: seq<F>)
    ensures |xs| == |ts|
  {
    seq(|ts|, i requires 0 <= i < |ts| => ts[i].1.x)
  }

  function ThirdValues<F>(ts: seq<TripleP<F>>): (xs: seq<F>)
    ensures |xs| == |ts|
  {
    seq(|ts|, i requires 0 <= i < |ts| => ts[i].2.x)
  }

  function ZipShares<F>(a: seq<Share<F>>, b: seq<Share<F>>, c: seq<Share<F>>): (ts: seq<SharedTriple<F>>)
    requires |a| == |b| == |c|
    ensures |ts| == |a|
  {
    seq(|a|, i requires 0 <= i < |a| => SharedTriple(a[i], b[i], c[i]))
  }

  /** The first peer proves random triples to the second and then shares them. `randoms` are its random shares. */
  method RunSharedTriples<F(!new, ==)>(a: Peer<F>, b: Peer<F>, chi: F, n: nat, randoms: seq<seq<F>>)
    returns (ta: seq<SharedTriple<F>>, tb: seq<SharedTriple<F>>, sent: ProductProof<F>, ok: bool)
    requires Paired(a, b) && DrawsBits(a.local)
    requires |randoms| == 3 && forall i :: 0 <= i < 3 ==> |randoms[i]| == n
    modifies a.local, a.remote, b.local, b.remote
    ensures Paired(a, b) && ok && |ta| == n && GoodTriples(a.local.r, a.remote.delta, b.remote.delta, ta, tb)
    ensures TriplesShared(a.local.r, DrawnTriples(a.local.r, a.local.supply, old(a.local.used), n), randoms, ta, tb)
    ensures n > 0 ==>
      sent == HonestProof(a.local.r, a.local.basis, chi,
                          DrawnTriples(a.local.r, a.local.supply, old(a.local.used), n),
                          a.local.Voles(old(a.local.used) + 3 * n, |a.local.basis|))
    ensures var m := TripleVoles(n, |a.local.basis|);
            a.local.used == old(a.local.used) + m && b.remote.used == old(b.remote.used) + m
    ensures b.local.used == old(b.local.used) + 3 * n && a.remote.used == old(a.remote.used) + 3 * n
  {
    hide Linked, Auth, IsBit, AuthTriple, PowerSum, Defects, DrawnTriples, HonestProof, Shared, Clear, AllCorrect;
    sent := ProductProof(a.local.r.zero, a.local.r.zero);
    if n == 0 {
      NoTriplesDrawn(a.local, b.remote, a.local.used);
      return [], [], sent, true;
    }
    var r := a.local.r;
    var ts, ss := RunRandomTriples(a.local, b.remote, n);
    ok, sent := RunCheckMultiply(a.local, b.remote, chi, ts, ss);
    var xa, xb := RunShareOwned(a, b, FirstValues(ts), randoms[0]);
    var ya, yb := RunShareOwned(a, b, SecondValues(ts), randoms[1]);
    var za, zb := RunShareOwned(a, b, ThirdValues(ts), randoms[2]);
    ta, tb := ZipShares(xa, ya, za), ZipShares(xb, yb, zb);
    SharesZipped(r, a.remote.delta, b.remote.delta, ts, randoms, xa, xb, ya, yb, za, zb);
  }

  lemma NoTriplesDrawn<F(!new)>(p: FComProver<F>, v: FComVerifier<F>, from: nat)
    requires Linked(p, v)
    ensures DrawnTriples(p.r, p.supply, from, 0) == []
  {
  }

  /** The shared triples hold the values of ts; the first peer's shares are the random ones. */
  ghost predicate TriplesShared<F>(r: Ring<F>, ts: seq<TripleP<F>>, randoms: seq<seq<F>>, ta: seq<SharedTriple<F>>,
                                   tb: seq<SharedTriple<F>>)
    requires |randoms| == 3
  {
    && |ta| == |tb|
    && Clears(r, TriplesA(ta), TriplesA(tb)) == FirstValues(ts)
    && Clears(r, TriplesB(ta), TriplesB(tb)) == SecondValues(ts)
    && Clears(r, TriplesC(ta), TriplesC(tb)) == ThirdValues(ts)
    && Values(Locals(TriplesA(ta))) == randoms[0] && Values(Locals(TriplesB(ta))) == randoms[1]
    && Values(Locals(TriplesC(ta))) == randoms[2]
  }

  function TriplesC<F>(ts: seq<SharedTriple<F>>): (s: seq<Share<F>>)
    ensures |s| == |ts|
  {
    seq(|ts|, i requires 0 <= i < |ts| => ts[i].c)
  }

  /** What sharing n checked triples takes from the owner. */
  function TripleVoles(n: nat, basis: nat): nat {
    if n == 0 then 0 else 6 * n + basis
  }

  lemma SharesZipped<F(!new)>(r: Ring<F>, da: F, db: F, ts: seq<TripleP<F>>, randoms: seq<seq<F>>, xa: seq<Share<F>>,
                              xb: seq<Share<F>>, ya: seq<Share<F>>, yb: seq<Share<F>>, za: seq<Share<F>>,
                              zb: seq<Share<F>>)
    requires SharedAll(r, da, db, xa, xb) && SharedAll(r, da, db, ya, yb) && SharedAll(r, da, db, za, zb)
    requires Clears(r, xa, xb) == FirstValues(ts) && Clears(r, ya, yb) == SecondValues(ts)
    requires Clears(r, za, zb) == ThirdValues(ts) && |randoms| == 3
    requires Values(Locals(xa)) == randoms[0] && Values(Locals(ya)) == randoms[1] && Values(Locals(za)) == randoms[2]
    requires AllCorrect(r, ts) && forall i :: 0 <= i < |ts| ==> IsBit(r, ts[i].0.x) && IsBit(r, ts[i].1.x)
    ensures |xa| == |xb| == |ya| == |yb| == |za| == |zb| == |ts|
    ensures GoodTriples(r, da, db, ZipShares(xa, ya, za), ZipShares(xb, yb, zb))
    ensures TriplesShared(r, ts, randoms, ZipShares(xa, ya, za), ZipShares(xb, yb, zb))
  {
    hide Shared, Clear, IsBit;
    assert |xa| == |Clears(r, xa, xb)| && |ya| == |Clears(r, ya, yb)| && |za| == |Clears(r, za, zb)|;
    var ta, tb := ZipShares(xa, ya, za), ZipShares(xb, yb, zb);
    assert TriplesA(ta) == xa && TriplesA(tb) == xb && TriplesB(ta) == ya && TriplesB(tb) == yb;
    assert TriplesC(ta) == za && TriplesC(tb) == zb;
    forall i | 0 <= i < |ts| ensures GoodTriple(r, da, db, ta[i], tb[i]) {
      assert Clears(r, xa, xb)[i] == ts[i].0.x && Clears(r, ya, yb)[i] == ts[i].1.x
          && Clears(r, za, zb)[i] == ts[i].2.x;
    }
  }

  // ---- checked daBits ----

  function DabitBitValues<F>(ds: seq<DabitP<F>>): (xs: seq<F>)
    ensures |xs| == |ds|
  {
    seq(|ds|, i requires 0 <= i < |ds| => ds[i].bit.x)
  }

  function DabitFieldValues<F>(ds: seq<DabitP<F>>): (xs: seq<Fp>)
    ensures |xs| == |ds|
  {
    seq(|ds|, i requires 0 <= i < |ds| => ds[i].value.x)
  }

  function ZipDabits<F>(bits: seq<Share<F>>, values: seq<Share<Fp>>): (ds: seq<SharedDabit<F>>)
    requires |bits| == |values|
    ensures |ds| == |bits|
  {
    seq(|bits|, i requires 0 <= i < |bits| => SharedDabit(bits[i], values[i]))
  }

  /** Everything the two peers hold, for both fields. */
  ghost predicate Ready<F(!new)>(a2: Peer<F>, b2: Peer<F>, ap: Peer<Fp>, bp: Peer<Fp>)
    reads a2.local, a2.remote, b2.local, b2.remote, ap.local, ap.remote, bp.local, bp.remote
  {
    && Paired(a2, b2) && Paired(ap, bp) && IsBinary(a2.local.r) && ap.local.r == FP && DrawsBits(a2.local)
    && {a2.local as object, a2.remote, b2.local, b2.remote} !! {ap.local as object, ap.remote, bp.local, bp.remote}
    && DrawsBits(b2.local)
  }

  /** The random inputs of one run: challenges, masking bits, selections and shares. */
  datatype DabitInputs<F> = DabitInputs(chi: Fp, cs: seq<seq<bool>>, es: seq<seq<bool>>, bitShares: seq<F>,
                                        valueShares: seq<Fp>)

  ghost predicate DabitShapes<F>(n: nat, ins: DabitInputs<F>) {
    Shapes(n, ins.cs, ins.es) && |ins.bitShares| == |ins.valueShares| == n
  }

  /** The first peer proves random daBits to the second and then shares them; refused for too many at once. */
  method RunSharedDabits<F(!new, ==)>(a2: Peer<F>, b2: Peer<F>, ap: Peer<Fp>, bp: Peer<Fp>,
                                      hash2: seq<F> -> seq<F>, hashP: seq<Fp> -> seq<Fp>, n: nat, ins: DabitInputs<F>)
    returns (da: seq<SharedDabit<F>>, db: seq<SharedDabit<F>>, trace: FdabitTrace<F>, ok: bool)
    requires Ready(a2, b2, ap, bp) && Hashes(hash2) && Hashes(hashP) && DabitShapes(n, ins)
    modifies a2.local, a2.remote, b2.local, b2.remote, ap.local, ap.remote, bp.local, bp.remote
    ensures Ready(a2, b2, ap, bp)
    ensures ok <==> n == 0 || CheckParameters(n, Gamma(n))
    ensures ok ==>
      && |da| == n
      && GoodSharedDabits(a2.local.r, a2.remote.delta, b2.remote.delta, ap.remote.delta, bp.remote.delta, da, db)
      && DabitsShared(a2.local.r, DrawnDabits(old(StockOf(a2.local, ap.local)), n), ins, da, db)
    ensures ok && n > 0 ==>
              var s := old(StockOf(a2.local, ap.local));
              && |DrawnDabits(s, n)| == n
              && FdabitTraced(s.After(n, n), ins.chi, DrawnDabits(s, n), ins.cs, ins.es, trace)
    ensures ok ==>
              var (m2, mp) := DabitVoles(n, |ap.local.basis|);
              && a2.local.used == old(a2.local.used) + m2 && b2.remote.used == old(b2.remote.used) + m2
              && ap.local.used == old(ap.local.used) + mp && bp.remote.used == old(bp.remote.used) + mp
              && b2.local.used == old(b2.local.used) + n && a2.remote.used == old(a2.remote.used) + n
              && bp.local.used == old(bp.local.used) + n && ap.remote.used == old(ap.remote.used) + n
  {
    hide Linked, Auth, IsBit, CheckParameters, Gamma, BitNat, BitValued, EvenMismatches, DrawsBits, Shapes, Shared,
         IsBinary, DrawnDabits, FdabitTraced, Clear, Hashes, Times, Productive;
    da, db, trace := [], [], FdabitTrace([], [], ProductProof(0, 0));
    if n == 0 {
      NoDabitsDrawn(a2.local, b2.remote, ap.local);
      return [], [], trace, true;
    }
    var r := a2.local.r;
    var ds, ks := RunRandomDabits(a2.local, b2.remote, ap.local, bp.remote, n);
    ok, trace := RunFdabit(a2.local, b2.remote, ap.local, bp.remote, hash2, hashP, ins.chi, ds, ks, ins.cs, ins.es);
    if !ok {
      return;
    }
    var ba, bb := RunShareOwned(a2, b2, DabitBitValues(ds), ins.bitShares);
    var va, vb := RunShareOwned(ap, bp, DabitFieldValues(ds), ins.valueShares);
    da, db := ZipDabits(ba, va), ZipDabits(bb, vb);
    ZippedDabits(r, a2.remote.delta, b2.remote.delta, ap.remote.delta, bp.remote.delta, ds, ins, ba, bb, va, vb);
  }

  lemma NoDabitsDrawn<F(!new)>(p: FComProver<F>, v: FComVerifier<F>, pp: FComProver<Fp>)
    requires Linked(p, v)
    ensures DrawnDabits(StockOf(p, pp), 0) == []
  {
  }

  /** The shared daBits hold the values of ds; the first peer's shares are the random ones. */
  ghost predicate DabitsShared<F>(r: Ring<F>, ds: seq<DabitP<F>>, ins: DabitInputs<F>, da: seq<SharedDabit<F>>,
                                  db: seq<SharedDabit<F>>)
  {
    && |da| == |db|
    && Clears(r, DabitBits(da), DabitBits(db)) == DabitBitValues(ds)
    && Clears(FP, DabitValues(da), DabitValues(db)) == DabitFieldValues(ds)
    && Values(Locals(DabitBits(da))) == ins.bitShares && Values(Locals(DabitValues(da))) == ins.valueShares
  }

  function DabitValues<F>(ds: seq<SharedDabit<F>>): (s: seq<Share<Fp>>)
    ensures |s| == |ds|
  {
    seq(|ds|, i requires 0 <= i < |ds| => ds[i].value)
  }

  /** What sharing n checked daBits takes from the owner, in both fields. */
  function DabitVoles(n: nat, basis: nat): (nat, nat) {
    if n == 0 then (0, 0)
    else (2 * n + FDABIT_SECURITY_PARAMETER, 2 * n + FdabitVoles(n, basis))
  }

  lemma ZippedDabits<F(!new)>(r: Ring<F>, da: F, db: F, ea: Fp, eb: Fp, ds: seq<DabitP<F>>, ins: DabitInputs<F>,
                              ba: seq<Share<F>>, bb: seq<Share<F>>, va: seq<Share<Fp>>, vb: seq<Share<Fp>>)
    requires SharedAll(r, da, db, ba, bb) && SharedAll(FP, ea, eb, va, vb) && Consistent(r, ds)
    requires Clears(r, ba, bb) == DabitBitValues(ds) && Clears(FP, va, vb) == DabitFieldValues(ds)
    requires Values(Locals(ba)) == ins.bitShares && Values(Locals(va)) == ins.valueShares
    ensures |ba| == |bb| == |va| == |vb| == |ds|
    ensures DabitsShared(r, ds, ins, ZipDabits(ba, va), ZipDabits(bb, vb))
    ensures GoodSharedDabits(r, da, db, ea, eb, ZipDabits(ba, va), ZipDabits(bb, vb))
  {
    hide Shared, Clear, IsBit, BitNat;
    assert |ba| == |Clears(r, ba, bb)| && |va| == |Clears(FP, va, vb)|;
    assert DabitBits(ZipDabits(ba, va)) == ba && DabitBits(ZipDabits(bb, vb)) == bb;
    assert DabitValues(ZipDabits(ba, va)) == va && DabitValues(ZipDabits(bb, vb)) == vb;
    forall i | 0 <= i < |ds|
      ensures GoodSharedDabit(r, da, db, ea, eb, ZipDabits(ba, va)[i], ZipDabits(bb, vb)[i])
    {
      assert Clears(r, ba, bb)[i] == ds[i].bit.x && Clears(FP, va, vb)[i] == ds[i].value.x;
    }
  }

  // ---- the combination ----

  ghost predicate SharedValues<F>(ea: Fp, eb: Fp, xs: seq<SharedEdabit<F>>, ys: seq<SharedEdabit<F>>) {
    |xs| == |ys| && forall i :: 0 <= i < |xs| ==> Shared(FP, ea, eb, xs[i].value, ys[i].value)
  }

  /** The arithmetic sums, as each peer adds them up. */
  ghost predicate SumsHold<F>(ea: Fp, eb: Fp, la: seq<SharedEdabit<F>>, lb: seq<SharedEdabit<F>>,
                              ra: seq<SharedEdabit<F>>, rb: seq<SharedEdabit<F>>, va: seq<Share<Fp>>,
                              vb: seq<Share<Fp>>)
    requires |la| == |lb| == |ra| == |rb|
  {
    && |va| == |la| && SharedAll(FP, ea, eb, va, vb)
    && forall i :: 0 <= i < |la| ==>
         Clear(FP, va[i], vb[i]) == FP.add(Clear(FP, la[i].value, lb[i].value), Clear(FP, ra[i].value, rb[i].value))
  }

  ghost predicate AllCombined<F>(r: Ring<F>, da: F, db: F, ea: Fp, eb: Fp, k: nat,
                                 la: seq<SharedEdabit<F>>, lb: seq<SharedEdabit<F>>, ra: seq<SharedEdabit<F>>,
                                 rb: seq<SharedEdabit<F>>, ga: seq<SharedEdabit<F>>, gb: seq<SharedEdabit<F>>)
    requires |la| == |lb| == |ra| == |rb|
  {
    && |ga| == |gb| == |la|
    && forall i :: 0 <= i < |la| ==> CombinedFrom(r, da, db, ea, eb, k, la[i], lb[i], ra[i], rb[i], ga[i], gb[i])
  }

  ghost function Carries<F>(r: Ring<F>, k: nat, xs: seq<seq<F>>, ys: seq<seq<F>>): (cs: seq<F>)
    requires |xs| == |ys| && forall j :: 0 <= j < |xs| ==> |xs[j]| == |ys[j]| == k
    ensures |cs| == |xs|
  {
    seq(|xs|, j requires 0 <= j < |xs| => CarryAt(r, xs[j], ys[j], k))
  }

  /** What is opened of the last carries: each masked by its daBit. */
  ghost predicate CarriesMasked<F>(r: Ring<F>, k: nat, xs: seq<seq<F>>, ys: seq<seq<F>>, bits: seq<F>, masks: seq<F>) {
    && |xs| == |ys| && (forall j :: 0 <= j < |xs| ==> |xs[j]| == |ys[j]| == k)
    && masks == AddEach(r, Carries(r, k, xs, ys), bits)
  }

  lemma CarriesAre<F(!new)>(r: Ring<F>, da: F, db: F, k: nat, la: seq<SharedEdabit<F>>, lb: seq<SharedEdabit<F>>,
                            ra: seq<SharedEdabit<F>>, rb: seq<SharedEdabit<F>>, ca: seq<Share<F>>, cb: seq<Share<F>>,
                            sa: seq<seq<Share<F>>>, sb: seq<seq<Share<F>>>)
    requires |la| == |ra| && SharedBatch(r, da, db, la, lb, k) && SharedBatch(r, da, db, ra, rb, k)
    requires AdderState(r, da, db, k, k, la, lb, ra, rb, ca, cb, sa, sb)
    ensures |ca| == |cb| == |la|
    ensures var xs, ys := ClearRows(r, la, lb), ClearRows(r, ra, rb);
            && (forall j :: 0 <= j < |xs| ==> |xs[j]| == |ys[j]| == k)
            && Clears(r, ca, cb) == Carries(r, k, xs, ys)
  {
    hide CarryAt, SumBits, Shared, Clear, IsBit;
    LengthsOf(r, da, db, la, lb, k);
    LengthsOf(r, da, db, ra, rb, k);
  }

  /** Adder, carry conversion and overflow correction, by both peers. */
  method RunCombineWith<F(!new, ==)>(a: Peer<F>, b: Peer<F>, hash: seq<F> -> seq<F>, ap: Peer<Fp>, bp: Peer<Fp>,
                                     k: nat, la: seq<SharedEdabit<F>>, lb: seq<SharedEdabit<F>>,
                                     ra: seq<SharedEdabit<F>>, rb: seq<SharedEdabit<F>>, va: seq<Share<Fp>>,
                                     vb: seq<Share<Fp>>, ta: seq<SharedTriple<F>>, tb: seq<SharedTriple<F>>,
                                     ua: seq<SharedDabit<F>>, ub: seq<SharedDabit<F>>)
    returns (ga: seq<SharedEdabit<F>>, gb: seq<SharedEdabit<F>>, ds: seq<seq<F>>, es: seq<seq<F>>, masks: seq<F>,
             ok: bool)
    requires Paired(a, b) && IsBinary(a.local.r) && Hashes(hash)
    requires |la| == |ra| && SharedBatch(a.local.r, a.remote.delta, b.remote.delta, la, lb, k)
    requires SharedBatch(a.local.r, a.remote.delta, b.remote.delta, ra, rb, k)
    requires SumsHold(ap.remote.delta, bp.remote.delta, la, lb, ra, rb, va, vb)
    requires |ta| == Times(k, |la|) && GoodTriples(a.local.r, a.remote.delta, b.remote.delta, ta, tb)
    requires |ua| == |la|
    requires GoodSharedDabits(a.local.r, a.remote.delta, b.remote.delta, ap.remote.delta, bp.remote.delta, ua, ub)
    ensures ok
    ensures AllCombined(a.local.r, a.remote.delta, b.remote.delta, ap.remote.delta, bp.remote.delta, k, la, lb, ra, rb,
                        ga, gb)
    ensures AdderMasked(a.local.r, k, k, ClearRows(a.local.r, la, lb), ClearRows(a.local.r, ra, rb), ta, tb, ds, es)
    ensures |ub| == |ua| && CarriesMasked(a.local.r, k, ClearRows(a.local.r, la, lb), ClearRows(a.local.r, ra, rb),
                                          Clears(a.local.r, DabitBits(ua), DabitBits(ub)), masks)
  {
    hide Linked, Auth, IsBit, Shared, Clear, CarryAt, SumBits, BitsValue, GoodTriple, GoodSharedDabit, BitNat,
         CombinedFrom, AreBits, AddShares, ScaleShare, ToFp, Pow2, IsBinary, FpNeg, FpAdd;
    var r := a.local.r;
    ghost var da, db, ea, eb := a.remote.delta, b.remote.delta, ap.remote.delta, bp.remote.delta;
    var sa, sb, ca, cb, okA;
    sa, sb, ca, cb, ds, es, okA := RunAdder(a, b, hash, k, la, lb, ra, rb, ta, tb);
    CarriesAreBits(r, da, db, k, k, la, lb, ra, rb, ca, cb, sa, sb);
    CarriesAre(r, da, db, k, la, lb, ra, rb, ca, cb, sa, sb);
    var ca', cb', okC;
    ca', cb', masks, okC := RunConvert(a, b, hash, ap.remote.delta, bp.remote.delta, ca, cb, ua, ub);
    ok := okA && okC;
    var power := PowerTwo(k);
    var scale := FpNeg(power);
    ga, gb := AssembleEdabits(sa, Corrected(scale, va, ca')), AssembleEdabits(sb, Corrected(scale, vb, cb'));
    forall i | 0 <= i < |la| ensures CombinedFrom(r, da, db, ea, eb, k, la[i], lb[i], ra[i], rb[i], ga[i], gb[i]) {
      assert Clears(FP, ca', cb')[i] == Clear(FP, ca'[i], cb'[i]) && Clears(r, ca, cb)[i] == Clear(r, ca[i], cb[i]);
      RowCombined(r, da, db, ea, eb, k, la[i], lb[i], ra[i], rb[i], sa[i], sb[i], va[i], vb[i], ca'[i], cb'[i], ga[i],
                  gb[i]);
    }
  }

  datatype CombineInputs<F> = CombineInputs(chi: F, tripleShares: seq<seq<F>>, dabits: DabitInputs<F>)

  ghost predicate CombineShapes<F>(k: nat, n: nat, ins: CombineInputs<F>) {
    && |ins.tripleShares| == 3 && (forall i :: 0 <= i < 3 ==> |ins.tripleShares[i]| == Times(k, n))
    && DabitShapes(n, ins.dabits)
  }

  /** What is sent on the way: the message about the triples, the check of the daBits, the masked factors of every
      column, and the masked carries. */
  datatype CombineTrace<F> = CombineTrace(triples: ProductProof<F>, fdabit: FdabitTrace<F>, ds: seq<seq<F>>,
                                          es: seq<seq<F>>, masks: seq<F>)

  function NoTrace<F>(r: Ring<F>): CombineTrace<F> {
    CombineTrace(ProductProof(r.zero, r.zero), FdabitTrace([], [], ProductProof(0, 0)), [], [], [])
  }

  /** What a combination takes from both peers' own pools, in both fields. */
  datatype PeerVoles = PeerVoles(own2: nat, ownP: nat, peer2: nat, peerP: nat)

  function CombineVoles(k: nat, n: nat, basis2: nat, basisP: nat): PeerVoles {
    if n == 0 then PeerVoles(0, 0, 0, 0)
    else
      var (d2, dp) := DabitVoles(n, basisP);
      PeerVoles(TripleVoles(Times(k, n), basis2) + d2, dp, 3 * Times(k, n) + n, n)
  }

  /** The factors of column i are masked by the i-th group of triples. */
  ghost predicate ColumnTraced<F>(r: Ring<F>, k: nat, i: nat, xs: seq<seq<F>>, ys: seq<seq<F>>, ts: seq<TripleP<F>>,
                                  d: seq<F>, e: seq<F>)
  {
    var n := |xs|;
    ColumnMasked(r, k, i, xs, ys, Part(FirstValues(ts), Times(i, n), n), Part(SecondValues(ts), Times(i, n), n), d, e)
  }

  /** The first peer's next random values make the triples and the daBits; the triples mask the factors of all columns
      in order, the daBits mask the last carries. */
  ghost predicate CombineTraced<F>(s: Stock<F>, k: nat, xs: seq<seq<F>>, ys: seq<seq<F>>, ins: CombineInputs<F>,
                                   t: CombineTrace<F>)
  {
    var n, m := |xs|, Times(k, |xs|);
    var ts, s' := DrawnTriples(s.r, s.s2, s.u2, m), s.After(TripleVoles(m, |s.basis2|), 0);
    var ds := DrawnDabits(s', n);
    && (m > 0 ==> t.triples == HonestProof(s.r, s.basis2, ins.chi, ts, s.Binary(3 * m, |s.basis2|)))
    && |ds| == n && FdabitTraced(s'.After(n, n), ins.dabits.chi, ds, ins.dabits.cs, ins.dabits.es, t.fdabit)
    && |t.ds| == |t.es| == k
    && (forall i :: 0 <= i < k ==> ColumnTraced(s.r, k, i, xs, ys, ts, t.ds[i], t.es[i]))
    && CarriesMasked(s.r, k, xs, ys, DabitBitValues(ds), t.masks)
  }

  lemma BatchLengths<F>(r: Ring<F>, da: F, db: F, ea: seq<SharedEdabit<F>>, eb: seq<SharedEdabit<F>>, k: nat)
    requires SharedBatch(r, da, db, ea, eb, k)
    ensures |ea| == |eb|
  {
  }

  lemma TracedCombine<F>(s: Stock<F>, k: nat, xs: seq<seq<F>>, ys: seq<seq<F>>, ins: CombineInputs<F>,
                         ta: seq<SharedTriple<F>>, tb: seq<SharedTriple<F>>, ua: seq<SharedDabit<F>>,
                         ub: seq<SharedDabit<F>>, t: CombineTrace<F>)
    requires CombineShapes(k, |xs|, ins)
    requires var n, m := |xs|, Times(k, |xs|);
             var ts, s' := DrawnTriples(s.r, s.s2, s.u2, m), s.After(TripleVoles(m, |s.basis2|), 0);
             var ds := DrawnDabits(s', n);
             && TriplesShared(s.r, ts, ins.tripleShares, ta, tb) && DabitsShared(s.r, ds, ins.dabits, ua, ub)
             && (m > 0 ==> t.triples == HonestProof(s.r, s.basis2, ins.chi, ts, s.Binary(3 * m, |s.basis2|)))
             && |ds| == n && FdabitTraced(s'.After(n, n), ins.dabits.chi, ds, ins.dabits.cs, ins.dabits.es, t.fdabit)
    requires AdderMasked(s.r, k, k, xs, ys, ta, tb, t.ds, t.es)
    requires |ua| == |ub| && CarriesMasked(s.r, k, xs, ys, Clears(s.r, DabitBits(ua), DabitBits(ub)), t.masks)
    ensures CombineTraced(s, k, xs, ys, ins, t)
  {
    hide DrawnTriples, DrawnDabits, HonestProof, FdabitTraced, ColumnTraced, CarriesMasked, Shapes, Times, Clear,
         AdderMasked, TriplesShared, Delivered, Part, FirstValues, SecondValues;
    var ts := DrawnTriples(s.r, s.s2, s.u2, Times(k, |xs|));
    TracedColumns(s.r, k, xs, ys, ts, ins.tripleShares, ta, tb, t.ds, t.es);
  }

  lemma TracedColumns<F>(r: Ring<F>, k: nat, xs: seq<seq<F>>, ys: seq<seq<F>>, ts: seq<TripleP<F>>,
                         randoms: seq<seq<F>>, ta: seq<SharedTriple<F>>, tb: seq<SharedTriple<F>>, ds: seq<seq<F>>,
                         es: seq<seq<F>>)
    requires |randoms| == 3 && TriplesShared(r, ts, randoms, ta, tb) && AdderMasked(r, k, k, xs, ys, ta, tb, ds, es)
    ensures |ds| == |es| == k
    ensures forall i :: 0 <= i < k ==> ColumnTraced(r, k, i, xs, ys, ts, ds[i], es[i])
  {
    hide ColumnAt, ColumnTraced, TriplesShared;
    forall i | 0 <= i < k ensures ColumnTraced(r, k, i, xs, ys, ts, ds[i], es[i]) {
      TracedColumn(r, k, i, xs, ys, ts, randoms, ta, tb, ds[i], es[i]);
    }
  }

  lemma TracedColumn<F>(r: Ring<F>, k: nat, i: nat, xs: seq<seq<F>>, ys: seq<seq<F>>, ts: seq<TripleP<F>>,
                        randoms: seq<seq<F>>, ta: seq<SharedTriple<F>>, tb: seq<SharedTriple<F>>, d: seq<F>, e: seq<F>)
    requires |randoms| == 3 && TriplesShared(r, ts, randoms, ta, tb) && ColumnAt(r, k, i, xs, ys, ta, tb, d, e)
    ensures ColumnTraced(r, k, i, xs, ys, ts, d, e)
  {
    hide ColumnMasked, Times, Clear, TriplesShared, TriplesA, TriplesB, FirstValues, SecondValues, Part, Clears;
    PartOfTriples(r, ts, randoms, ta, tb, Times(i, |xs|), |xs|);
  }

  lemma PartOfTriples<F>(r: Ring<F>, ts: seq<TripleP<F>>, randoms: seq<seq<F>>, ta: seq<SharedTriple<F>>,
                         tb: seq<SharedTriple<F>>, base: nat, n: nat)
    requires |randoms| == 3 && TriplesShared(r, ts, randoms, ta, tb) && base + n <= |ta| == |tb|
    ensures Clears(r, TriplesA(ta[base..base + n]), TriplesA(tb[base..base + n])) == Part(FirstValues(ts), base, n)
    ensures Clears(r, TriplesB(ta[base..base + n]), TriplesB(tb[base..base + n])) == Part(SecondValues(ts), base, n)
  {
    hide Clear;
    assert FirstValues(ts) == Clears(r, TriplesA(ta), TriplesA(tb));
    assert SecondValues(ts) == Clears(r, TriplesB(ta), TriplesB(tb));
  }

  /** `combine_private_into_global_edabits`: la/lb are the two halves of the first peer's edaBits, ra/rb those of
      the second's. It fails only when there are too many daBits for the field. */
  method RunCombine<F(!new, ==)>(a2: Peer<F>, b2: Peer<F>, ap: Peer<Fp>, bp: Peer<Fp>,
                                 hash2: seq<F> -> seq<F>, hashP: seq<Fp> -> seq<Fp>, k: nat,
                                 la: seq<SharedEdabit<F>>, lb: seq<SharedEdabit<F>>,
                                 ra: seq<SharedEdabit<F>>, rb: seq<SharedEdabit<F>>, ins: CombineInputs<F>)
    returns (ga: seq<SharedEdabit<F>>, gb: seq<SharedEdabit<F>>, trace: CombineTrace<F>, ok: bool)
    requires Ready(a2, b2, ap, bp) && Hashes(hash2) && Hashes(hashP) && |la| == |ra| && CombineShapes(k, |la|, ins)
    requires SharedBatch(a2.local.r, a2.remote.delta, b2.remote.delta, la, lb, k)
    requires SharedBatch(a2.local.r, a2.remote.delta, b2.remote.delta, ra, rb, k)
    requires SharedValues(ap.remote.delta, bp.remote.delta, la, lb)
    requires SharedValues(ap.remote.delta, bp.remote.delta, ra, rb)
    modifies a2.local, a2.remote, b2.local, b2.remote, ap.local, ap.remote, bp.local, bp.remote
    ensures Ready(a2, b2, ap, bp)
    ensures ok <==> la == [] || CheckParameters(|la|, Gamma(|la|))
    ensures ok ==>
      AllCombined(a2.local.r, a2.remote.delta, b2.remote.delta, ap.remote.delta, bp.remote.delta, k, la, lb, ra, rb, ga,
                  gb)
    ensures ok ==> |lb| == |la| && |rb| == |ra|
    ensures ok && la != [] ==>
      CombineTraced(old(StockOf(a2.local, ap.local)), k, ClearRows(a2.local.r, la, lb), ClearRows(a2.local.r, ra, rb),
                    ins, trace)
    ensures ok ==>
              var m := CombineVoles(k, |la|, |a2.local.basis|, |ap.local.basis|);
              && a2.local.used == old(a2.local.used) + m.own2 && b2.remote.used == old(b2.remote.used) + m.own2
              && ap.local.used == old(ap.local.used) + m.ownP && bp.remote.used == old(bp.remote.used) + m.ownP
              && b2.local.used == old(b2.local.used) + m.peer2 && a2.remote.used == old(a2.remote.used) + m.peer2
              && bp.local.used == old(bp.local.used) + m.peerP && ap.remote.used == old(ap.remote.used) + m.peerP
  {
    hide Linked, Auth, IsBit, Shared, Clear, BitsValue, GoodTriple, GoodSharedDabit, BitNat, CombinedFrom, AreBits,
         AddShares, CheckParameters, Gamma, SharedBatch, Shapes, DrawsBits, IsBinary, FpAdd, SumsHold, GoodTriples,
         GoodSharedDabits, Times, DrawnTriples, DrawnDabits, HonestProof, FdabitTraced, TriplesShared, DabitsShared,
         AdderMasked, CarriesMasked, ClearRows, CombineTraced, Hashes, Delivered;
    ga, gb, trace := [], [], NoTrace(a2.local.r);
    ghost var s := StockOf(a2.local, ap.local);
    BatchLengths(a2.local.r, a2.remote.delta, b2.remote.delta, la, lb, k);
    BatchLengths(a2.local.r, a2.remote.delta, b2.remote.delta, ra, rb, k);
    if la == [] {
      return [], [], trace, true;
    }
    var ta, tb, sent, okT := RunSharedTriples(a2, b2, ins.chi, Times(k, |la|), ins.tripleShares);
    var ua, ub, fdabit, okD := RunSharedDabits(a2, b2, ap, bp, hash2, hashP, |la|, ins.dabits);
    if !okD {
      return [], [], trace, false;
    }
    // each peer adds its own contribution to the other peer's
    var va, vb := AddPairwise(FP, EdabitValues(la), EdabitValues(ra)),
    AddPairwise(FP, EdabitValues(rb), EdabitValues(lb));
    PeerSums(ap.remote.delta, bp.remote.delta, la, lb, ra, rb);
    var ds, es, masks;
    ga, gb, ds, es, masks, ok := RunCombineWith(a2, b2, hash2, ap, bp, k, la, lb, ra, rb, va, vb, ta, tb, ua, ub);
    ok := ok && okT;
    trace := CombineTrace(sent, fdabit, ds, es, masks);
    TracedCombine(s, k, ClearRows(a2.local.r, la, lb), ClearRows(a2.local.r, ra, rb), ins, ta, tb, ua, ub, trace);
  }

  lemma PeerSums<F(!new)>(ea: Fp, eb: Fp, la: seq<SharedEdabit<F>>, lb: seq<SharedEdabit<F>>, ra: seq<SharedEdabit<F>>,
                          rb: seq<SharedEdabit<F>>)
    requires |la| == |ra| && SharedValues(ea, eb, la, lb) && SharedValues(ea, eb, ra, rb)
    ensures SumsHold(ea, eb, la, lb, ra, rb, AddPairwise(FP, EdabitValues(la), EdabitValues(ra)),
                     AddPairwise(FP, EdabitValues(rb), EdabitValues(lb)))
  {
    hide FpAdd;
    FpIsRing();
    forall i | 0 <= i < |la|
      ensures AddShares(FP, rb[i].value, lb[i].value) == AddShares(FP, lb[i].value, rb[i].value)
      ensures Shared(FP, ea, eb, AddShares(FP, la[i].value, ra[i].value), AddShares(FP, lb[i].value, rb[i].value))
      ensures Clear(FP, AddShares(FP, la[i].value, ra[i].value), AddShares(FP, lb[i].value, rb[i].value))
           == FP.add(Clear(FP, la[i].value, lb[i].value), Clear(FP, ra[i].value, rb[i].value))
    {
      AddShared(FP, ea, eb, la[i].value, lb[i].value, ra[i].value, rb[i].value);
      AddComm(FP, rb[i].value.local.x, lb[i].value.local.x);
      AddComm(FP, rb[i].value.local.m, lb[i].value.local.m);
      AddComm(FP, rb[i].value.remote.k, lb[i].value.remote.k);
    }
  }

  /** Opening shares one by one. */
  method RunOpenEach<F(!new, ==)>(a: Peer<F>, b: Peer<F>, hash: seq<F> -> seq<F>, sa: seq<Share<F>>, sb: seq<Share<F>>)
    returns (xa: seq<F>, xb: seq<F>, ok: bool)
    requires Paired(a, b) && Hashes(hash) && SharedAll(a.local.r, a.remote.delta, b.remote.delta, sa, sb)
    ensures ok && xa == xb == Clears(a.local.r, sa, sb)
  {
    hide Linked, Shared, Clear;
    xa, xb, ok := [], [], true;
    for i := 0 to |sa|
      invariant ok && xa == xb && |xa| == i && forall j :: 0 <= j < i ==> xa[j] == Clear(a.local.r, sa[j], sb[j])
    {
      var x, y, good := RunOpen(a, b, hash, [sa[i]], [sb[i]]);
      assert x[0] == Clears(a.local.r, [sa[i]], [sb[i]])[0];
      xa, xb, ok := xa + [x[0]], xb + [y[0]], good;
    }
  }

  /** Opening the results: both peers see the same bits and the same value. */
  method RunOpenEdabits<F(!new, ==)>(a2: Peer<F>, b2: Peer<F>, ap: Peer<Fp>, bp: Peer<Fp>,
                                     hash2: seq<F> -> seq<F>, hashP: seq<Fp> -> seq<Fp>, k: nat,
                                     ga: seq<SharedEdabit<F>>, gb: seq<SharedEdabit<F>>)
    returns (xa: seq<(seq<F>, Fp)>, xb: seq<(seq<F>, Fp)>, ok: bool)
    requires Ready(a2, b2, ap, bp) && Hashes(hash2) && Hashes(hashP)
    requires SharedBatch(a2.local.r, a2.remote.delta, b2.remote.delta, ga, gb, k)
    requires SharedValues(ap.remote.delta, bp.remote.delta, ga, gb)
    ensures ok && xa == xb && |xa| == |ga|
    ensures forall i :: 0 <= i < |ga| ==>
      xa[i] == (ClearBits(a2.local.r, ga[i], gb[i]), Clear(FP, ga[i].value, gb[i].value))
  {
    hide Linked, Auth, IsBit, Shared, Clear, AreBits, DrawsBits, IsBinary;
    xa, xb, ok := [], [], true;
    for i := 0 to |ga|
      invariant ok && xa == xb && |xa| == i
      invariant forall j :: 0 <= j < i ==>
        xa[j] == (ClearBits(a2.local.r, ga[j], gb[j]), Clear(FP, ga[j].value, gb[j].value))
    {
      assert SharedBits(a2.local.r, a2.remote.delta, b2.remote.delta, ga[i].bits, gb[i].bits);
      var bitsA, bitsB, okB := RunOpenEach(a2, b2, hash2, ga[i].bits, gb[i].bits);
      var valueA, valueB, okV := RunOpen(ap, bp, hashP, [ga[i].value], [gb[i].value]);
      assert valueA[0] == Clears(FP, [ga[i].value], [gb[i].value])[0];
      xa, xb, ok := xa + [(bitsA, valueA[0])], xb + [(bitsB, valueB[0])], okB && okV;
    }
  }

  // ---- sharing private edaBits ----

  datatype Policy = RandomAdditive | OwnerZero

  /** A batch of clear edaBits of k bits each. */
  ghost predicate ClearBatch<F>(r: Ring<F>, bits: seq<seq<F>>, values: seq<Fp>, k: nat) {
    |bits| == |values| && forall i :: 0 <= i < |bits| ==> |bits[i]| == k && AreBits(r, bits[i])
  }

  /** Regrouping a flat list of shares, row by row. */
  method Regroup<F>(flat: seq<Share<F>>, values: seq<Share<Fp>>, k: nat) returns (es: seq<SharedEdabit<F>>)
    requires |flat| == Times(|values|, k)
    ensures |es| == |values|
    ensures forall i :: 0 <= i < |es| ==> es[i] == SharedEdabit(Chunk(flat, k, |values|, i), values[i])
  {
    es := [];
    var offset := 0;
    for i := 0 to |values|
      invariant |es| == i && offset == Times(i, k)
      invariant forall j :: 0 <= j < i ==> es[j] == SharedEdabit(Chunk(flat, k, |values|, j), values[j])
    {
      TimesMonotone(i + 1, |values|, k);
      assert Chunk(flat, k, |values|, i) == flat[offset..offset + k];
      es := es + [SharedEdabit(flat[offset..offset + k], values[i])];
      offset := offset + k;
    }
  }

  /** The two halves of a batch whose clear contents are known. */
  ghost predicate Encodes<F>(r: Ring<F>, da: F, db: F, ea: Fp, eb: Fp, k: nat, bits: seq<seq<F>>, values: seq<Fp>,
                             xs: seq<SharedEdabit<F>>, ys: seq<SharedEdabit<F>>) {
    && SharedBatch(r, da, db, xs, ys, k) && SharedValues(ea, eb, xs, ys) && |xs| == |bits| == |values|
    && forall i :: 0 <= i < |xs| ==>
       ClearBits(r, xs[i], ys[i]) == bits[i] && Clear(FP, xs[i].value, ys[i].value) == values[i]
  }

  lemma RegroupedEncodes<F(!new)>(r: Ring<F>, da: F, db: F, ea: Fp, eb: Fp, k: nat, bits: seq<seq<F>>, values: seq<Fp>,
                                  fa: seq<Share<F>>, fb: seq<Share<F>>, va: seq<Share<Fp>>, vb: seq<Share<Fp>>,
                                  xs: seq<SharedEdabit<F>>, ys: seq<SharedEdabit<F>>)
    requires ClearBatch(r, bits, values, k)
    requires SharedAll(r, da, db, fa, fb) && Clears(r, fa, fb) == Flatten(bits)
    requires SharedAll(FP, ea, eb, va, vb) && Clears(FP, va, vb) == values
    requires |fa| == Times(|bits|, k) && |xs| == |ys| == |bits|
    requires forall i :: 0 <= i < |xs| ==>
      xs[i] == SharedEdabit(Chunk(fa, k, |bits|, i), va[i]) && ys[i] == SharedEdabit(Chunk(fb, k, |bits|, i), vb[i])
    ensures Encodes(r, da, db, ea, eb, k, bits, values, xs, ys)
  {
    hide Shared, Clear, IsBit;
    forall i | 0 <= i < |xs|
      ensures SharedBits(r, da, db, xs[i].bits, ys[i].bits) && ClearBits(r, xs[i], ys[i]) == bits[i]
      ensures Clear(FP, xs[i].value, ys[i].value) == values[i] && Shared(FP, ea, eb, xs[i].value, ys[i].value)
    {
      RegroupedRow(r, da, db, k, bits, fa, fb, i);
      assert Clears(FP, va, vb)[i] == Clear(FP, va[i], vb[i]);
    }
  }

  lemma RegroupedRow<F(!new)>(r: Ring<F>, da: F, db: F, k: nat, bits: seq<seq<F>>, fa: seq<Share<F>>, fb: seq<Share<F>>,
                              i: nat)
    requires i < |bits| && forall j :: 0 <= j < |bits| ==> |bits[j]| == k
    requires SharedAll(r, da, db, fa, fb) && Clears(r, fa, fb) == Flatten(bits) && |fa| == Times(|bits|, k)
    ensures SharedAll(r, da, db, Chunk(fa, k, |bits|, i), Chunk(fb, k, |bits|, i))
    ensures Clears(r, Chunk(fa, k, |bits|, i), Chunk(fb, k, |bits|, i)) == bits[i]
  {
    hide Shared, Clear, Flatten;
    TimesMonotone(i + 1, |bits|, k);
    FlattenSlice(bits, k, i);
    var lo := Times(i, k);
    assert Clears(r, fa[lo..lo + k], fb[lo..lo + k]) == Clears(r, fa, fb)[lo..lo + k];
  }

  /** Row i under a policy: the owner's shares are the random ones, or the values themselves against literal zeros. */
  ghost predicate RowShared<F>(r: Ring<F>, policy: Policy, k: nat, bits: seq<F>, value: Fp, bitRandoms: seq<F>,
                               valueRandom: Fp, x: SharedEdabit<F>, y: SharedEdabit<F>)
  {
    if policy == RandomAdditive
    then Values(Locals(x.bits)) == bitRandoms && x.value.local.x == valueRandom
    else OwnerHolds(r, bits, x.bits, y.bits) && OwnerHolds(FP, [value], [x.value], [y.value])
  }

  ghost predicate SharedUnder<F>(r: Ring<F>, policy: Policy, k: nat, bits: seq<seq<F>>, values: seq<Fp>,
                                 bitRandoms: seq<F>, valueRandoms: seq<Fp>, xs: seq<SharedEdabit<F>>,
                                 ys: seq<SharedEdabit<F>>)
    requires |bitRandoms| == Times(|bits|, k) && |valueRandoms| == |values| == |bits|
  {
    && |xs| == |ys| == |bits|
    && forall i :: 0 <= i < |bits| ==>
       RowShared(r, policy, k, bits[i], values[i], Chunk(bitRandoms, k, |bits|, i), valueRandoms[i], xs[i], ys[i])
  }

  /** What the other peer's pool gives to a sharing of m values. */
  function Handed(policy: Policy, m: nat): nat {
    if policy == RandomAdditive then m else 0
  }

  lemma RandomRow<F(!new)>(r: Ring<F>, k: nat, bits: seq<seq<F>>, values: seq<Fp>, bitRandoms: seq<F>,
                           valueRandoms: seq<Fp>, fa: seq<Share<F>>, va: seq<Share<Fp>>, x: SharedEdabit<F>,
                           y: SharedEdabit<F>, i: nat)
    requires |bitRandoms| == Times(|bits|, k) && |valueRandoms| == |values| == |bits| == |va| && i < |bits|
    requires Values(Locals(fa)) == bitRandoms && Values(Locals(va)) == valueRandoms && |fa| == Times(|bits|, k)
    requires x == SharedEdabit(Chunk(fa, k, |bits|, i), va[i])
    ensures RowShared(r, RandomAdditive, k, bits[i], values[i], Chunk(bitRandoms, k, |bits|, i), valueRandoms[i], x, y)
  {
    TimesMonotone(i + 1, |bits|, k);
    var lo := Times(i, k);
    assert Values(Locals(fa[lo..lo + k])) == Values(Locals(fa))[lo..lo + k];
    assert Values(Locals(va))[i] == va[i].local.x;
  }

  lemma OwnerRow<F(!new)>(r: Ring<F>, k: nat, bits: seq<seq<F>>, values: seq<Fp>, bitRandoms: seq<F>,
                          valueRandoms: seq<Fp>, fa: seq<Share<F>>, fb: seq<Share<F>>, va: seq<Share<Fp>>,
                          vb: seq<Share<Fp>>, x: SharedEdabit<F>, y: SharedEdabit<F>, i: nat)
    requires |bitRandoms| == Times(|bits|, k) && |valueRandoms| == |values| == |bits| && i < |bits|
    requires forall j :: 0 <= j < |bits| ==> |bits[j]| == k
    requires OwnerHolds(r, Flatten(bits), fa, fb) && OwnerHolds(FP, values, va, vb) && |fa| == Times(|bits|, k)
    requires x == SharedEdabit(Chunk(fa, k, |bits|, i), va[i]) && y == SharedEdabit(Chunk(fb, k, |bits|, i), vb[i])
    ensures RowShared(r, OwnerZero, k, bits[i], values[i], Chunk(bitRandoms, k, |bits|, i), valueRandoms[i], x, y)
  {
    hide Flatten;
    TimesMonotone(i + 1, |bits|, k);
    FlattenSlice(bits, k, i);
  }

  /** An owner shares values under either policy. */
  method RunShareEither<F(!new, ==)>(a: Peer<F>, b: Peer<F>, policy: Policy, values: seq<F>, randoms: seq<F>)
    returns (sa: seq<Share<F>>, sb: seq<Share<F>>)
    requires Linked(a.local, b.remote) && Linked(b.local, a.remote) && a.local.r == b.local.r
    requires a.local != b.local && a.remote != b.remote && |values| == |randoms|
    modifies a.local, a.remote, b.local, b.remote
    ensures Linked(a.local, b.remote) && Linked(b.local, a.remote)
    ensures SharedAll(a.local.r, a.remote.delta, b.remote.delta, sa, sb) && Clears(a.local.r, sa, sb) == values
    ensures if policy == RandomAdditive then Values(Locals(sa)) == randoms else OwnerHolds(a.local.r, values, sa, sb)
    ensures a.local.used == old(a.local.used) + |values| && b.remote.used == old(b.remote.used) + |values|
    ensures b.local.used == old(b.local.used) + Handed(policy, |values|)
    ensures a.remote.used == old(a.remote.used) + Handed(policy, |values|)
  {
    hide Linked, SharedAll, Clears, Values, Locals, OwnerHolds, CommitAll, Productive;
    if policy == RandomAdditive {
      sa, sb := RunShareOwned(a, b, values, randoms);
    } else {
      sa, sb := RunShareOwnerZero(a, b, values);
    }
  }

  /** An owner shares its clear edaBits with the other peer, under either policy. Both directions of
      authentication hold afterwards, and the two halves encode exactly the clear edaBits. */
  method RunSharePrivate<F(!new, ==)>(a2: Peer<F>, b2: Peer<F>, ap: Peer<Fp>, bp: Peer<Fp>, policy: Policy, k: nat,
                                      bits: seq<seq<F>>, values: seq<Fp>, bitRandoms: seq<F>, valueRandoms: seq<Fp>)
    returns (xs: seq<SharedEdabit<F>>, ys: seq<SharedEdabit<F>>)
    requires Linked(a2.local, b2.remote) && Linked(b2.local, a2.remote) && a2.local.r == b2.local.r
    requires Linked(ap.local, bp.remote) && Linked(bp.local, ap.remote) && ap.local.r == bp.local.r == FP
    requires a2.local != b2.local && a2.remote != b2.remote && ap.local != bp.local && ap.remote != bp.remote
    requires {a2.local as object, a2.remote, b2.local, b2.remote} !! {ap.local as object, ap.remote, bp.local,
                                                                      bp.remote}
    requires ClearBatch(a2.local.r, bits, values, k) && |bitRandoms| == Times(|bits|, k) && |valueRandoms| == |values|
    requires |values| == |bits|
    modifies a2.local, a2.remote, b2.local, b2.remote, ap.local, ap.remote, bp.local, bp.remote
    ensures Linked(a2.local, b2.remote) && Linked(b2.local, a2.remote) && Linked(ap.local, bp.remote)
    ensures Linked(bp.local, ap.remote)
    ensures Encodes(a2.local.r, a2.remote.delta, b2.remote.delta, ap.remote.delta, bp.remote.delta, k, bits, values, xs,
                    ys)
    ensures SharedUnder(a2.local.r, policy, k, bits, values, bitRandoms, valueRandoms, xs, ys)
    ensures var m, h := Times(|bits|, k), Handed(policy, Times(|bits|, k));
            && a2.local.used == old(a2.local.used) + m && b2.remote.used == old(b2.remote.used) + m
            && b2.local.used == old(b2.local.used) + h && a2.remote.used == old(a2.remote.used) + h
    ensures var m, h := |bits|, Handed(policy, |bits|);
            && ap.local.used == old(ap.local.used) + m && bp.remote.used == old(bp.remote.used) + m
            && bp.local.used == old(bp.local.used) + h && ap.remote.used == old(ap.remote.used) + h
  {
    hide Linked, Shared, Clear, IsBit, Flatten, Times, AreBits, Chunk, RowShared, Values, Locals, Encodes, OwnerHolds;
    var flat := Flatten(bits);
    FlattenLength(bits, k);
    var fa, fb, va, vb;
    fa, fb := RunShareEither(a2, b2, policy, flat, bitRandoms);
    va, vb := RunShareEither(ap, bp, policy, values, valueRandoms);
    assert |fa| == |Clears(a2.local.r, fa, fb)| && |va| == |Clears(FP, va, vb)|;
    xs := Regroup(fa, va, k);
    ys := Regroup(fb, vb, k);
    RegroupedEncodes(a2.local.r, a2.remote.delta, b2.remote.delta, ap.remote.delta, bp.remote.delta, k, bits, values,
                     fa, fb, va, vb, xs, ys);
    forall i | 0 <= i < |bits|
      ensures RowShared(a2.local.r, policy, k, bits[i], values[i], Chunk(bitRandoms, k, |bits|, i), valueRandoms[i],
                        xs[i], ys[i])
    {
      if policy == RandomAdditive {
        RandomRow(a2.local.r, k, bits, values, bitRandoms, valueRandoms, fa, va, xs[i], ys[i], i);
      } else {
        OwnerRow(a2.local.r, k, bits, values, bitRandoms, valueRandoms, fa, fb, va, vb, xs[i], ys[i], i);
      }
    }
  }

  // ---- the flow as a whole ----

  lemma SwapPeers<F(!new)>(r: Ring<F>, da: F, db: F, sa: seq<Share<F>>, sb: seq<Share<F>>)
    requires IsRing(r) && SharedAll(r, da, db, sa, sb)
    ensures SharedAll(r, db, da, sb, sa) && Clears(r, sb, sa) == Clears(r, sa, sb)
  {
    forall i | 0 <= i < |sa| ensures Clears(r, sb, sa)[i] == Clears(r, sa, sb)[i] {
      AddComm(r, sa[i].local.x, sb[i].local.x);
    }
  }

  lemma SwapEncodes<F(!new)>(r: Ring<F>, da: F, db: F, ea: Fp, eb: Fp, k: nat, bits: seq<seq<F>>, values: seq<Fp>,
                             xs: seq<SharedEdabit<F>>, ys: seq<SharedEdabit<F>>)
    requires IsRing(r) && Encodes(r, da, db, ea, eb, k, bits, values, xs, ys)
    ensures Encodes(r, db, da, eb, ea, k, bits, values, ys, xs)
  {
    hide SharedAll, IsBit, FpAdd;
    FpIsRing();
    forall i | 0 <= i < |xs|
      ensures |ys[i].bits| == k && SharedBits(r, db, da, ys[i].bits, xs[i].bits)
      ensures ClearBits(r, ys[i], xs[i]) == bits[i]
      ensures Shared(FP, eb, ea, ys[i].value, xs[i].value) && Clear(FP, ys[i].value, xs[i].value) == values[i]
    {
      assert SharedBits(r, da, db, xs[i].bits, ys[i].bits);
      SwapPeers(r, da, db, xs[i].bits, ys[i].bits);
      SwapLengths(r, da, db, xs[i].bits, ys[i].bits);
      AddComm(FP, xs[i].value.local.x, ys[i].value.local.x);
    }
  }

  lemma SwapLengths<F>(r: Ring<F>, da: F, db: F, sa: seq<Share<F>>, sb: seq<Share<F>>)
    requires SharedAll(r, da, db, sa, sb)
    ensures |sa| == |sb|
  {
  }

  /** What both peers open for one pair of clear edaBits: the binary form of (x + y) mod 2^k, and that number plus
      whatever the two inputs' values were off by. The policy does not appear. */
  ghost function Result<F>(r: Ring<F>, k: nat, xs: seq<F>, v: Fp, ys: seq<F>, w: Fp): (seq<F>, Fp) {
    var s := (BitsValue(r, xs) + BitsValue(r, ys)) % Pow2(k);
    (Binary(r, s, k), FP.add(ToFp(s), FP.add(Discrepancy(r, xs, v), Discrepancy(r, ys, w))))
  }

  /** For consistent inputs the value is the same number. */
  lemma ConsistentResult<F(!new)>(r: Ring<F>, k: nat, xs: seq<F>, v: Fp, ys: seq<F>, w: Fp)
    requires v == ToFp(BitsValue(r, xs)) && w == ToFp(BitsValue(r, ys))
    ensures var s := (BitsValue(r, xs) + BitsValue(r, ys)) % Pow2(k);
            Result(r, k, xs, v, ys, w) == (Binary(r, s, k), ToFp(s))
  {
    hide BitsValue, Binary, Pow2, ToFp, FpAdd, FpNeg;
    FpIsRing();
    SubIsZero(FP, v, ToFp(BitsValue(r, xs)));
    SubIsZero(FP, w, ToFp(BitsValue(r, ys)));
    AddZero(FP, 0);
    AddZero(FP, ToFp((BitsValue(r, xs) + BitsValue(r, ys)) % Pow2(k)));
  }

  lemma CombinedResult<F(!new)>(r: Ring<F>, da: F, db: F, ea: Fp, eb: Fp, k: nat,
                                la: SharedEdabit<F>, lb: SharedEdabit<F>, ra: SharedEdabit<F>, rb: SharedEdabit<F>,
                                ga: SharedEdabit<F>, gb: SharedEdabit<F>)
    requires IsBinary(r) && CombinedFrom(r, da, db, ea, eb, k, la, lb, ra, rb, ga, gb)
    ensures (ClearBits(r, ga, gb), Clear(FP, ga.value, gb.value))
         == Result(r, k, ClearBits(r, la, lb), Clear(FP, la.value, lb.value), ClearBits(r, ra, rb),
                   Clear(FP, ra.value, rb.value))
  {
    hide BitsValue, Binary, Pow2, ToFp, FpAdd, FpNeg, IsBit, Shared, Clear;
    var s := (BitsValue(r, ClearBits(r, la, lb)) + BitsValue(r, ClearBits(r, ra, rb))) % Pow2(k);
    BinaryValue(r, s, k);
    BitsValueInjective(r, ClearBits(r, ga, gb), Binary(r, s, k));
    FpIsRing();
    var g := Clear(FP, ga.value, gb.value);
    SubAdd(FP, g, ToFp(s));
    AddComm(FP, FP.Sub(g, ToFp(s)), ToFp(s));
  }

  datatype ShareInputs<F> = ShareInputs(bits: seq<F>, values: seq<Fp>)

  ghost predicate ShareShapes<F>(k: nat, n: nat, ins: ShareInputs<F>) {
    |ins.bits| == Times(n, k) && |ins.values| == n
  }

  /** Both peers share clear edaBits under a policy, combine them and open the result. Both learn the same result,
      which depends on the clear inputs only. */
  method RunFromClear<F(!new, ==)>(a2: Peer<F>, b2: Peer<F>, ap: Peer<Fp>, bp: Peer<Fp>,
                                   hash2: seq<F> -> seq<F>, hashP: seq<Fp> -> seq<Fp>, policy: Policy, k: nat,
                                   bitsA: seq<seq<F>>, valuesA: seq<Fp>, bitsB: seq<seq<F>>, valuesB: seq<Fp>,
                                   insA: ShareInputs<F>, insB: ShareInputs<F>, ins: CombineInputs<F>)
    returns (xa: seq<(seq<F>, Fp)>, xb: seq<(seq<F>, Fp)>, ok: bool)
    requires Ready(a2, b2, ap, bp) && Hashes(hash2) && Hashes(hashP) && |bitsA| == |bitsB|
    requires ClearBatch(a2.local.r, bitsA, valuesA, k) && ClearBatch(a2.local.r, bitsB, valuesB, k)
    requires ShareShapes(k, |bitsA|, insA) && ShareShapes(k, |bitsA|, insB) && CombineShapes(k, |bitsA|, ins)
    modifies a2.local, a2.remote, b2.local, b2.remote, ap.local, ap.remote, bp.local, bp.remote
    ensures Ready(a2, b2, ap, bp)
    ensures ok <==> bitsA == [] || CheckParameters(|bitsA|, Gamma(|bitsA|))
    ensures ok ==> xa == xb && |xa| == |bitsA|
    ensures ok ==> forall i :: 0 <= i < |bitsA| ==>
      xa[i] == Result(a2.local.r, k, bitsA[i], valuesA[i], bitsB[i], valuesB[i])
  {
    hide Linked, Shared, Clear, IsBit, Times, AreBits, CheckParameters, Gamma, Shapes, DrawsBits, Result, AllCombined,
         BitsValue, Pow2, SharedUnder, CombineTraced, CombineShapes, Hashes, IsRing, ClearRows;
    var r := a2.local.r;
    ghost var da, db, ea, eb := a2.remote.delta, b2.remote.delta, ap.remote.delta, bp.remote.delta;
    var la, lb := RunSharePrivate(a2, b2, ap, bp, policy, k, bitsA, valuesA, insA.bits, insA.values);
    var rb, ra := RunSharePrivate(b2, a2, bp, ap, policy, k, bitsB, valuesB, insB.bits, insB.values);
    SwapEncodes(r, db, da, eb, ea, k, bitsB, valuesB, rb, ra);
    var ga, gb;
    var trace;
    ga, gb, trace, ok := RunCombine(a2, b2, ap, bp, hash2, hashP, k, la, lb, ra, rb, ins);
    if !ok {
      return [], [], false;
    }
    CombinedBatch(r, da, db, ea, eb, k, la, lb, ra, rb, ga, gb);
    AllCombinedLength(r, da, db, ea, eb, k, la, lb, ra, rb, ga, gb);
    xa, xb, ok := RunOpenEdabits(a2, b2, ap, bp, hash2, hashP, k, ga, gb);
  }

  lemma CombinedBatch<F(!new)>(r: Ring<F>, da: F, db: F, ea: Fp, eb: Fp, k: nat,
                               la: seq<SharedEdabit<F>>, lb: seq<SharedEdabit<F>>, ra: seq<SharedEdabit<F>>,
                               rb: seq<SharedEdabit<F>>, ga: seq<SharedEdabit<F>>, gb: seq<SharedEdabit<F>>)
    requires IsBinary(r) && |la| == |lb| == |ra| == |rb| && AllCombined(r, da, db, ea, eb, k, la, lb, ra, rb, ga, gb)
    ensures SharedBatch(r, da, db, ga, gb, k) && SharedValues(ea, eb, ga, gb)
    ensures forall i :: 0 <= i < |la| ==>
              && |la[i].bits| == |lb[i].bits| && |ra[i].bits| == |rb[i].bits|
              && (ClearBits(r, ga[i], gb[i]), Clear(FP, ga[i].value, gb[i].value))
                 == Result(r, k, ClearBits(r, la[i], lb[i]), Clear(FP, la[i].value, lb[i].value),
                           ClearBits(r, ra[i], rb[i]), Clear(FP, ra[i].value, rb[i].value))
  {
    hide Result, BitsValue, Shared, Clear, SharedBits, EdabitDiscrepancy, FpAdd;
    forall i | 0 <= i < |la|
      ensures |ga[i].bits| == |gb[i].bits| == k && |la[i].bits| == |lb[i].bits| && |ra[i].bits| == |rb[i].bits|
      ensures SharedBits(r, da, db, ga[i].bits, gb[i].bits) && Shared(FP, ea, eb, ga[i].value, gb[i].value)
      ensures (ClearBits(r, ga[i], gb[i]), Clear(FP, ga[i].value, gb[i].value))
           == Result(r, k, ClearBits(r, la[i], lb[i]), Clear(FP, la[i].value, lb[i].value),
                     ClearBits(r, ra[i], rb[i]), Clear(FP, ra[i].value, rb[i].value))
    {
      assert CombinedFrom(r, da, db, ea, eb, k, la[i], lb[i], ra[i], rb[i], ga[i], gb[i]);
      CombinedResult(r, da, db, ea, eb, k, la[i], lb[i], ra[i], rb[i], ga[i], gb[i]);
    }
  }

  // ---- sampling, proving and combining ----

  /** `select_cut_and_choose_parameters`: as many buckets as opened edaBits. */
  function CutAndChoose(n: nat): (b: nat)
    requires n >= 1024
  {
    if n < 10322 then 5 else if n < 1048576 then 4 else 3
  }

  datatype ConvInputs<!F> = ConvInputs(hash2: seq<F> -> seq<F>, hashP: seq<Fp> -> seq<Fp>, chi2: F, chiP: Fp,
                                       chis: seq<seq<Fp>>, picksE: nat -> nat, picksD: nat -> nat, cs: seq<seq<bool>>,
                                       es: seq<seq<bool>>)

  ghost predicate ConvShapes<F(!new)>(n: nat, ins: ConvInputs<F>)
    requires n >= 1024
  {
    && Hashes(ins.hash2) && Hashes(ins.hashP) && Shuffle.Draws(ins.picksE) && Shuffle.Draws(ins.picksD)
    && |ins.chis| == CutAndChoose(n) && (forall j :: 0 <= j < |ins.chis| ==> |ins.chis[j]| == n)
    && Shapes(Times(CutAndChoose(n), n), ins.cs, ins.es)
  }

  /** The sampled edaBits are consistent, and the proof views belong to them. */
  ghost predicate Sampled<F>(r: Ring<F>, d2: F, dp: Fp, k: nat, es: seq<EdabitP<F>>, fs: seq<EdabitV<F>>,
                             bits: seq<seq<F>>, values: seq<Fp>) {
    && AuthEdabits(r, d2, dp, es, fs, k) && LengthP(es, k) && ClearBatch(r, bits, values, k) && |bits| == |es|
    && forall i :: 0 <= i < |es| ==>
       es[i].value.x == values[i] == ToFp(BitsValue(r, bits[i])) && Values(es[i].bits) == bits[i]
  }

  /** The i-th row of the next random bits, k in a row. */
  ghost function DrawnRow<F>(s: Stock<F>, k: nat, i: nat): seq<F> {
    Values(s.Binary(Times(i, k), k))
  }

  ghost function DrawnRows<F>(s: Stock<F>, k: nat, n: nat): (rows: seq<seq<F>>)
    ensures |rows| == n
  {
    seq(n, i requires 0 <= i < n => DrawnRow(s, k, i))
  }

  /** `sample_private_edabits_with_policy` and its receiving side: the owner's next random bits, and their numbers. */
  method RunSample<F(!new, ==)>(a2: Peer<F>, b2: Peer<F>, ap: Peer<Fp>, bp: Peer<Fp>, policy: Policy, k: nat, n: nat,
                                ins: ShareInputs<F>)
    returns (es: seq<EdabitP<F>>, fs: seq<EdabitV<F>>, xs: seq<SharedEdabit<F>>, ys: seq<SharedEdabit<F>>,
             bits: seq<seq<F>>, values: seq<Fp>)
    requires Linked(a2.local, b2.remote) && Linked(b2.local, a2.remote) && a2.local.r == b2.local.r
    requires DrawsBits(a2.local)
    requires Linked(ap.local, bp.remote) && Linked(bp.local, ap.remote) && ap.local.r == bp.local.r == FP
    requires a2.local != b2.local && a2.remote != b2.remote && ap.local != bp.local && ap.remote != bp.remote
    requires {a2.local as object, a2.remote, b2.local, b2.remote} !! {ap.local as object, ap.remote, bp.local,
                                                                      bp.remote}
    requires ShareShapes(k, n, ins)
    modifies a2.local, a2.remote, b2.local, b2.remote, ap.local, ap.remote, bp.local, bp.remote
    ensures Linked(a2.local, b2.remote) && Linked(b2.local, a2.remote) && Linked(ap.local, bp.remote)
    ensures Linked(bp.local, ap.remote)
    ensures |es| == n && Sampled(a2.local.r, b2.remote.delta, bp.remote.delta, k, es, fs, bits, values)
    ensures es == DrawnEdabits(old(StockOf(a2.local, ap.local)), k, n)
    ensures bits == DrawnRows(old(StockOf(a2.local, ap.local)), k, n)
    ensures |values| == n && forall i :: 0 <= i < n ==> values[i] == ToFp(BitsValue(a2.local.r, bits[i]))
    ensures |bits| == |values| == n && SharedUnder(a2.local.r, policy, k, bits, values, ins.bits, ins.values, xs, ys)
    ensures var m, h := Times(n, k), Handed(policy, Times(n, k));
            && a2.local.used == old(a2.local.used) + 2 * m && b2.remote.used == old(b2.remote.used) + 2 * m
            && b2.local.used == old(b2.local.used) + h && a2.remote.used == old(a2.remote.used) + h
    ensures var h := Handed(policy, n);
            && ap.local.used == old(ap.local.used) + 2 * n && bp.remote.used == old(bp.remote.used) + 2 * n
            && bp.local.used == old(bp.local.used) + h && ap.remote.used == old(ap.remote.used) + h
    ensures Encodes(a2.local.r, a2.remote.delta, b2.remote.delta, ap.remote.delta, bp.remote.delta, k, bits, values, xs,
                    ys)
  {
    hide Linked, Auth, IsBit, BitsValue, ToFp, FpAdd, FpNeg, Times, Shared, Clear, Encodes, AuthEdabit, AreBits,
         TupleDiscrepancy, DrawnEdabits, SharedUnder, Delivered;
    ghost var s := StockOf(a2.local, ap.local);
    es, fs := RunRandomEdabits(a2.local, b2.remote, ap.local, bp.remote, k, n);
    bits := seq(n, i requires 0 <= i < n => Values(es[i].bits));
    values := seq(n, i requires 0 <= i < n => es[i].value.x);
    SampledFrom(a2.local.r, b2.remote.delta, bp.remote.delta, k, es, fs, bits, values);
    RowsDrawn(s, k, n, es);
    hide Values;
    xs, ys := RunSharePrivate(a2, b2, ap, bp, policy, k, bits, values, ins.bits, ins.values);
  }

  lemma RowsDrawn<F(!new)>(s: Stock<F>, k: nat, n: nat, es: seq<EdabitP<F>>)
    requires es == DrawnEdabits(s, k, n)
    ensures forall i :: 0 <= i < n ==> Values(es[i].bits) == DrawnRow(s, k, i)
    ensures forall i :: 0 <= i < n ==> es[i].value.x == ToFp(BitsValue(s.r, Values(es[i].bits)))
  {
    hide Delivered, BitsValue, ToFp, Times;
  }

  lemma SampledFrom<F(!new)>(r: Ring<F>, d2: F, dp: Fp, k: nat, es: seq<EdabitP<F>>, fs: seq<EdabitV<F>>,
                             bits: seq<seq<F>>, values: seq<Fp>)
    requires AuthEdabits(r, d2, dp, es, fs, k) && LengthP(es, k) && |bits| == |values| == |es|
    requires forall i :: 0 <= i < |es| ==> TupleDiscrepancy(r, es[i]) == 0
    requires forall i :: 0 <= i < |es| ==> bits[i] == Values(es[i].bits) && values[i] == es[i].value.x
    ensures Sampled(r, d2, dp, k, es, fs, bits, values)
  {
    hide AuthEdabit, AreBits, BitsValue, ToFp, FpAdd, FpNeg;
    FpIsRing();
    forall i | 0 <= i < |es|
      ensures |bits[i]| == k && AreBits(r, bits[i]) && values[i] == ToFp(BitsValue(r, bits[i]))
    {
      SubIsZero(FP, es[i].value.x, ToFp(BitsValue(r, Values(es[i].bits))));
      assert |Values(es[i].bits)| == |es[i].bits|;
    }
  }

  /** A proof of the edaBits es, with the next random values. */
  ghost predicate Proved<F(!new)>(s: Stock<F>, k: nat, es: seq<EdabitP<F>>, ins: ConvInputs<F>, t: ConvTrace<F>) {
    && |es| >= 1024 && |t.passes| == CutAndChoose(|es|)
    && ConvTraced(s, ins.chi2, ins.chiP, ins.chis, ins.picksE, ins.picksD, ins.cs, ins.es, CutAndChoose(|es|), k, es, t)
  }

  /** What the proof of n sampled edaBits takes. */
  function ProofVoles(n: nat, k: nat, basis2: nat, basisP: nat): (nat, nat)
    requires n >= 1024
  {
    EstimateVoles(n, k, CutAndChoose(n), CutAndChoose(n), basis2, basisP)
  }

  /** The owner's proof of its sampled edaBits; it always succeeds when the daBit check admits their number. */
  method RunProve<F(!new, ==)>(a2: Peer<F>, b2: Peer<F>, ap: Peer<Fp>, bp: Peer<Fp>, k: nat, es: seq<EdabitP<F>>,
                               fs: seq<EdabitV<F>>, ghost bits: seq<seq<F>>, ghost values: seq<Fp>, ins: ConvInputs<F>)
    returns (ok: bool, trace: ConvTrace<F>)
    requires Linked(a2.local, b2.remote) && Linked(ap.local, bp.remote) && ap.local.r == FP && IsBinary(a2.local.r)
    requires DrawsBits(a2.local)
    requires {a2.local as object, b2.remote} !! {ap.local as object, bp.remote}
    requires |es| >= 1024 && Sampled(a2.local.r, b2.remote.delta, bp.remote.delta, k, es, fs, bits, values)
    requires ConvShapes(|es|, ins)
    modifies a2.local, b2.remote, ap.local, bp.remote
    ensures Linked(a2.local, b2.remote) && Linked(ap.local, bp.remote)
    ensures var n := Times(CutAndChoose(|es|), |es|);
            ok <==> CheckParameters(n, Gamma(n))
    ensures ok ==> Proved(old(StockOf(a2.local, ap.local)), k, es, ins, trace)
    ensures ok ==>
              var (n2, np) := ProofVoles(|es|, k, |a2.local.basis|, |ap.local.basis|);
              && a2.local.used == old(a2.local.used) + n2 && b2.remote.used == old(b2.remote.used) + n2
              && ap.local.used == old(ap.local.used) + np && bp.remote.used == old(bp.remote.used) + np
  {
    hide Linked, Auth, IsBit, BitsValue, ToFp, Times, AuthEdabit, AreBits, TupleDiscrepancy, CheckParameters, Gamma,
         BucketsAccept, Shapes, ConvTraced, Hashes, EstimateVoles, DrawsBits;
    ConsistentAccepted(a2.local.r, bp.remote.delta, ins.chis, es);
    ok, trace := RunConv(a2.local, b2.remote, ap.local, bp.remote, ins.hash2, ins.hashP, ins.chi2, ins.chiP, ins.chis,
                  ins.picksE, ins.picksD, ins.cs, ins.es, CutAndChoose(|es|), k, es, fs);
  }

  /** Both peers open the same edaBits, each with its value equal to its bits. */
  ghost predicate SameEdabits<F>(r: Ring<F>, k: nat, xa: seq<(seq<F>, Fp)>, xb: seq<(seq<F>, Fp)>) {
    && xa == xb
    && forall i :: 0 <= i < |xa| ==>
         |xa[i].0| == k && AreBits(r, xa[i].0) && xa[i].1 == ToFp(BitsValue(r, xa[i].0))
  }

  datatype Randomness<!F> = Randomness(shareA: ShareInputs<F>, shareB: ShareInputs<F>, convA: ConvInputs<F>,
                                       convB: ConvInputs<F>, combine: CombineInputs<F>)

  /** Both proofs and the combination. */
  datatype GenerateTrace<F> = GenerateTrace(convA: ConvTrace<F>, convB: ConvTrace<F>, combine: CombineTrace<F>)

  /** What both peers have taken from their own pools once all edaBits are sampled and shared: for m values each. */
  function SharingVoles(policy: Policy, m: nat): nat {
    2 * m + Handed(policy, m)
  }

  /** Position i of the result: the sum modulo 2^k of the two numbers sampled there. */
  ghost function SumOf<F>(r: Ring<F>, k: nat, xs: seq<F>, ys: seq<F>): (seq<F>, Fp) {
    var s := (BitsValue(r, xs) + BitsValue(r, ys)) % Pow2(k);
    (Binary(r, s, k), ToFp(s))
  }

  /** A peer's stock when it samples: the first at once, the second after handing out the first one's shares. */
  ghost function SecondStock<F>(t: Stock<F>, policy: Policy, k: nat, n: nat): Stock<F> {
    t.After(Handed(policy, Times(n, k)), Handed(policy, n))
  }

  /** Both stocks once all edaBits are sampled and shared. */
  ghost function Sampling<F>(s: Stock<F>, policy: Policy, k: nat, n: nat): Stock<F> {
    s.After(SharingVoles(policy, Times(n, k)), SharingVoles(policy, n))
  }

  ghost function Proving<F>(s: Stock<F>, k: nat, n: nat): Stock<F>
    requires n >= 1024
  {
    var (m2, mp) := ProofVoles(n, k, |s.basis2|, |s.basisP|);
    s.After(m2, mp)
  }

  /** What is left of both peers' stocks at the end. */
  ghost function GenerateVoles<F>(s: Stock<F>, t: Stock<F>, policy: Policy, k: nat, n: nat): (Stock<F>, Stock<F>)
    requires n >= 1024
  {
    var m := CombineVoles(k, n, |s.basis2|, |s.basisP|);
    (Proving(Sampling(s, policy, k, n), k, n).After(m.own2, m.ownP),
     Proving(Sampling(t, policy, k, n), k, n).After(m.peer2, m.peerP))
  }

  /** Position i holds the sum of the numbers in the i-th rows that the peers sampled; each peer's proof is about the
      edaBits it sampled; the combination is one of these rows. */
  ghost predicate GenerateTraced<F(!new)>(s: Stock<F>, t: Stock<F>, policy: Policy, k: nat, n: nat, rand: Randomness<F>,
                                          xs: seq<(seq<F>, Fp)>, trace: GenerateTrace<F>)
    requires n >= 1024
  {
    var t' := SecondStock(t, policy, k, n);
    var rowsA, rowsB := DrawnRows(s, k, n), DrawnRows(t', k, n);
    && |xs| == n && (forall i :: 0 <= i < n ==> xs[i] == SumOf(s.r, k, rowsA[i], rowsB[i]))
    && Proved(Sampling(s, policy, k, n), k, DrawnEdabits(s, k, n), rand.convA, trace.convA)
    && Proved(Sampling(t, policy, k, n), k, DrawnEdabits(t', k, n), rand.convB, trace.convB)
    && CombineTraced(Proving(Sampling(s, policy, k, n), k, n), k, rowsA, rowsB, rand.combine, trace.combine)
  }

  /** `generate_global_edabits_with_policy`, then opened: every run that the daBit checks admit opens, at position i,
      the sum modulo 2^k of the numbers in the i-th rows of random bits that the two peers sampled. */
  method RunGenerate<F(!new, ==)>(a2: Peer<F>, b2: Peer<F>, ap: Peer<Fp>, bp: Peer<Fp>,
                                  hash2: seq<F> -> seq<F>, hashP: seq<Fp> -> seq<Fp>, policy: Policy, k: nat, n: nat,
                                  rand: Randomness<F>)
    returns (xa: seq<(seq<F>, Fp)>, xb: seq<(seq<F>, Fp)>, trace: GenerateTrace<F>, ok: bool)
    requires Ready(a2, b2, ap, bp) && Hashes(hash2) && Hashes(hashP) && n >= 1024
    requires ShareShapes(k, n, rand.shareA) && ShareShapes(k, n, rand.shareB)
    requires ConvShapes(n, rand.convA) && ConvShapes(n, rand.convB) && CombineShapes(k, n, rand.combine)
    modifies a2.local, a2.remote, b2.local, b2.remote, ap.local, ap.remote, bp.local, bp.remote
    ensures Ready(a2, b2, ap, bp)
    ensures var m := Times(CutAndChoose(n), n);
            ok <==> CheckParameters(m, Gamma(m)) && CheckParameters(n, Gamma(n))
    ensures ok ==> |xa| == n && SameEdabits(a2.local.r, k, xa, xb)
    ensures ok ==>
              GenerateTraced(old(StockOf(a2.local, ap.local)), old(StockOf(b2.local, bp.local)), policy, k, n, rand, xa,
                             trace)
    ensures ok ==>
              var (s, t) := GenerateVoles(old(StockOf(a2.local, ap.local)), old(StockOf(b2.local, bp.local)), policy, k,
                                          n);
              StockOf(a2.local, ap.local) == s && StockOf(b2.local, bp.local) == t
  {
    hide Linked, Times, Encodes, CheckParameters, Gamma, Sampled, ConvShapes, CombineShapes, Hashes, SameEdabits,
         DrawsBits, IsRing, IsBinary, CombineTraced, DrawnEdabits, ProofVoles, CombineVoles, SumOf, Proved,
         ShareShapes, DrawnRows;
    ghost var s, t := StockOf(a2.local, ap.local), StockOf(b2.local, bp.local);
    xa, xb := [], [];
    trace := GenerateTrace(NoConv(), NoConv(), NoTrace(a2.local.r));
    var es, fs, la, lb, bitsA, valuesA, gs, hs, rb, ra, bitsB, valuesB :=
      RunSampleBoth(a2, b2, ap, bp, policy, k, n, rand.shareA, rand.shareB);
    var convA, convB, combine;
    ok, convA := RunProve(a2, b2, ap, bp, k, es, fs, bitsA, valuesA, rand.convA);
    if !ok {
      return;
    }
    ok, convB := RunProve(b2, a2, bp, ap, k, gs, hs, bitsB, valuesB, rand.convB);
    if !ok {
      return;
    }
    xa, xb, combine, ok :=
      RunCombineOpened(a2, b2, ap, bp, hash2, hashP, k, n, la, lb, ra, rb, bitsA, valuesA, bitsB, valuesB,
                       rand.combine);
    trace := GenerateTrace(convA, convB, combine);
  }

  /** Both peers sample and share, the first one first. */
  method RunSampleBoth<F(!new, ==)>(a2: Peer<F>, b2: Peer<F>, ap: Peer<Fp>, bp: Peer<Fp>, policy: Policy, k: nat,
                                    n: nat, insA: ShareInputs<F>, insB: ShareInputs<F>)
    returns (es: seq<EdabitP<F>>, fs: seq<EdabitV<F>>, la: seq<SharedEdabit<F>>, lb: seq<SharedEdabit<F>>,
             bitsA: seq<seq<F>>, valuesA: seq<Fp>, gs: seq<EdabitP<F>>, hs: seq<EdabitV<F>>, rb: seq<SharedEdabit<F>>,
             ra: seq<SharedEdabit<F>>, bitsB: seq<seq<F>>, valuesB: seq<Fp>)
    requires Ready(a2, b2, ap, bp) && ShareShapes(k, n, insA) && ShareShapes(k, n, insB)
    modifies a2.local, a2.remote, b2.local, b2.remote, ap.local, ap.remote, bp.local, bp.remote
    ensures Ready(a2, b2, ap, bp) && |es| == |gs| == n
    ensures Sampled(a2.local.r, b2.remote.delta, bp.remote.delta, k, es, fs, bitsA, valuesA)
    ensures Sampled(a2.local.r, a2.remote.delta, ap.remote.delta, k, gs, hs, bitsB, valuesB)
    ensures var s, t := old(StockOf(a2.local, ap.local)), SecondStock(old(StockOf(b2.local, bp.local)), policy, k, n);
            && es == DrawnEdabits(s, k, n) && gs == DrawnEdabits(t, k, n)
            && bitsA == DrawnRows(s, k, n) && bitsB == DrawnRows(t, k, n)
    ensures |valuesA| == |valuesB| == n && forall i :: 0 <= i < n ==>
      valuesA[i] == ToFp(BitsValue(a2.local.r, bitsA[i])) && valuesB[i] == ToFp(BitsValue(a2.local.r, bitsB[i]))
    ensures Encodes(a2.local.r, a2.remote.delta, b2.remote.delta, ap.remote.delta, bp.remote.delta, k, bitsA, valuesA,
                    la, lb)
    ensures Encodes(a2.local.r, a2.remote.delta, b2.remote.delta, ap.remote.delta, bp.remote.delta, k, bitsB, valuesB,
                    ra, rb)
    ensures |bitsA| == n && SharedUnder(a2.local.r, policy, k, bitsA, valuesA, insA.bits, insA.values, la, lb)
    ensures |bitsB| == n && SharedUnder(a2.local.r, policy, k, bitsB, valuesB, insB.bits, insB.values, rb, ra)
    ensures StockOf(a2.local, ap.local) == Sampling(old(StockOf(a2.local, ap.local)), policy, k, n)
    ensures StockOf(b2.local, bp.local) == Sampling(old(StockOf(b2.local, bp.local)), policy, k, n)
  {
    hide Linked, Times, Encodes, Sampled, DrawsBits, DrawnEdabits, DrawnRows, Handed, SharedUnder, BitsValue, ToFp;
    ghost var r := a2.local.r;
    es, fs, la, lb, bitsA, valuesA := RunSample(a2, b2, ap, bp, policy, k, n, insA);
    gs, hs, rb, ra, bitsB, valuesB := RunSample(b2, a2, bp, ap, policy, k, n, insB);
    SwapEncodes(r, b2.remote.delta, a2.remote.delta, bp.remote.delta, ap.remote.delta, k, bitsB, valuesB, rb, ra);
  }

  /** Two batches that encode clear edaBits, combined and opened: the sums. */
  method RunCombineOpened<F(!new, ==)>(a2: Peer<F>, b2: Peer<F>, ap: Peer<Fp>, bp: Peer<Fp>, hash2: seq<F> -> seq<F>,
                                       hashP: seq<Fp> -> seq<Fp>, k: nat, n: nat, la: seq<SharedEdabit<F>>,
                                       lb: seq<SharedEdabit<F>>, ra: seq<SharedEdabit<F>>, rb: seq<SharedEdabit<F>>,
                                       ghost bitsA: seq<seq<F>>, ghost valuesA: seq<Fp>, ghost bitsB: seq<seq<F>>,
                                       ghost valuesB: seq<Fp>, ins: CombineInputs<F>)
    returns (xa: seq<(seq<F>, Fp)>, xb: seq<(seq<F>, Fp)>, trace: CombineTrace<F>, ok: bool)
    requires Ready(a2, b2, ap, bp) && Hashes(hash2) && Hashes(hashP) && n > 0 && CombineShapes(k, n, ins)
    requires |bitsA| == |bitsB| == |valuesA| == |valuesB| == n && forall i :: 0 <= i < n ==>
      valuesA[i] == ToFp(BitsValue(a2.local.r, bitsA[i])) && valuesB[i] == ToFp(BitsValue(a2.local.r, bitsB[i]))
    requires Encodes(a2.local.r, a2.remote.delta, b2.remote.delta, ap.remote.delta, bp.remote.delta, k, bitsA, valuesA,
                     la, lb)
    requires Encodes(a2.local.r, a2.remote.delta, b2.remote.delta, ap.remote.delta, bp.remote.delta, k, bitsB, valuesB,
                     ra, rb)
    modifies a2.local, a2.remote, b2.local, b2.remote, ap.local, ap.remote, bp.local, bp.remote
    ensures Ready(a2, b2, ap, bp)
    ensures ok <==> CheckParameters(n, Gamma(n))
    ensures ok ==> |xa| == n && SameEdabits(a2.local.r, k, xa, xb)
    ensures ok ==> forall i :: 0 <= i < n ==> xa[i] == SumOf(a2.local.r, k, bitsA[i], bitsB[i])
    ensures ok ==> CombineTraced(old(StockOf(a2.local, ap.local)), k, bitsA, bitsB, ins, trace)
    ensures ok ==>
              var m := CombineVoles(k, n, |a2.local.basis|, |ap.local.basis|);
              && a2.local.used == old(a2.local.used) + m.own2 && ap.local.used == old(ap.local.used) + m.ownP
              && b2.local.used == old(b2.local.used) + m.peer2 && bp.local.used == old(bp.local.used) + m.peerP
  {
    hide Linked, IsBit, BitsValue, ToFp, Times, Shared, Clear, Encodes, AreBits, CheckParameters, Gamma, CombineShapes,
         Hashes, SameEdabits, SharedBatch, SharedValues, AllCombined, DrawsBits, IsRing, Result, CombineTraced,
         CombineVoles, SumOf, ClearRows, ClearBits;
    var r := a2.local.r;
    ghost var da, db, ea, eb := a2.remote.delta, b2.remote.delta, ap.remote.delta, bp.remote.delta;
    EncodesParts(r, da, db, ea, eb, k, bitsA, valuesA, la, lb);
    EncodesParts(r, da, db, ea, eb, k, bitsB, valuesB, ra, rb);
    xa, xb := [], [];
    var ga, gb;
    ga, gb, trace, ok := RunCombine(a2, b2, ap, bp, hash2, hashP, k, la, lb, ra, rb, ins);
    if !ok {
      return;
    }
    CombinedBatch(r, da, db, ea, eb, k, la, lb, ra, rb, ga, gb);
    AllCombinedLength(r, da, db, ea, eb, k, la, lb, ra, rb, ga, gb);
    xa, xb, ok := RunOpenEdabits(a2, b2, ap, bp, hash2, hashP, k, ga, gb);
    forall i | 0 <= i < n
      ensures |xa[i].0| == k && AreBits(r, xa[i].0) && xa[i].1 == ToFp(BitsValue(r, xa[i].0))
      ensures xa[i] == SumOf(r, k, bitsA[i], bitsB[i])
    {
      ResultConsistent(r, da, db, ea, eb, k, bitsA, valuesA, bitsB, valuesB, la, lb, ra, rb, i);
    }
    AllSame(r, k, xa, xb);
  }

  function NoConv<F>(): ConvTrace<F> {
    ConvTrace(FdabitTrace([], [], ProductProof(0, 0)), [], [])
  }

  lemma AllSame<F>(r: Ring<F>, k: nat, xa: seq<(seq<F>, Fp)>, xb: seq<(seq<F>, Fp)>)
    requires xa == xb
    requires forall i :: 0 <= i < |xa| ==>
      |xa[i].0| == k && AreBits(r, xa[i].0) && xa[i].1 == ToFp(BitsValue(r, xa[i].0))
    ensures SameEdabits(r, k, xa, xb)
  {
  }

  lemma EncodesParts<F>(r: Ring<F>, da: F, db: F, ea: Fp, eb: Fp, k: nat, bits: seq<seq<F>>, values: seq<Fp>,
                        xs: seq<SharedEdabit<F>>, ys: seq<SharedEdabit<F>>)
    requires Encodes(r, da, db, ea, eb, k, bits, values, xs, ys)
    ensures SharedBatch(r, da, db, xs, ys, k) && SharedValues(ea, eb, xs, ys) && |xs| == |ys| == |bits|
    ensures ClearRows(r, xs, ys) == bits
  {
    hide Shared, Clear, IsBit;
    forall i | 0 <= i < |xs| ensures ClearRows(r, xs, ys)[i] == bits[i] {
      SharedBatchLengths(r, da, db, xs, ys, k, i);
    }
  }

  lemma AllCombinedLength<F>(r: Ring<F>, da: F, db: F, ea: Fp, eb: Fp, k: nat,
                             la: seq<SharedEdabit<F>>, lb: seq<SharedEdabit<F>>, ra: seq<SharedEdabit<F>>,
                             rb: seq<SharedEdabit<F>>, ga: seq<SharedEdabit<F>>, gb: seq<SharedEdabit<F>>)
    requires |la| == |lb| == |ra| == |rb| && AllCombined(r, da, db, ea, eb, k, la, lb, ra, rb, ga, gb)
    ensures |ga| == |gb| == |la|
  {
  }

  lemma ResultConsistent<F(!new)>(r: Ring<F>, da: F, db: F, ea: Fp, eb: Fp, k: nat,
                                  bitsA: seq<seq<F>>, valuesA: seq<Fp>, bitsB: seq<seq<F>>, valuesB: seq<Fp>,
                                  la: seq<SharedEdabit<F>>, lb: seq<SharedEdabit<F>>, ra: seq<SharedEdabit<F>>,
                                  rb: seq<SharedEdabit<F>>, i: nat)
    requires IsBinary(r) && i < |bitsA| == |bitsB| == |valuesA| == |valuesB|
    requires valuesA[i] == ToFp(BitsValue(r, bitsA[i])) && valuesB[i] == ToFp(BitsValue(r, bitsB[i]))
    requires Encodes(r, da, db, ea, eb, k, bitsA, valuesA, la, lb)
    requires Encodes(r, da, db, ea, eb, k, bitsB, valuesB, ra, rb)
    ensures |la| == |lb| == |ra| == |rb| == |bitsA|
    ensures |la[i].bits| == |lb[i].bits| && |ra[i].bits| == |rb[i].bits|
    ensures var (bits, value) := Result(r, k, ClearBits(r, la[i], lb[i]), Clear(FP, la[i].value, lb[i].value),
                                        ClearBits(r, ra[i], rb[i]), Clear(FP, ra[i].value, rb[i].value));
            && |bits| == k && AreBits(r, bits) && value == ToFp(BitsValue(r, bits))
            && (bits, value) == SumOf(r, k, bitsA[i], bitsB[i])
  {
    hide BitsValue, ToFp, SharedAll, Clear, Shared, Binary, Pow2, IsBit, SharedBits, Values;
    assert |la[i].bits| == |lb[i].bits| && |ra[i].bits| == |rb[i].bits| by {
      SharedBatchLengths(r, da, db, la, lb, k, i);
      SharedBatchLengths(r, da, db, ra, rb, k, i);
    }
    ConsistentResult(r, k, bitsA[i], valuesA[i], bitsB[i], valuesB[i]);
    BinaryValue(r, (BitsValue(r, bitsA[i]) + BitsValue(r, bitsB[i])) % Pow2(k), k);
  }

  lemma SharedBatchLengths<F>(r: Ring<F>, da: F, db: F, xs: seq<SharedEdabit<F>>, ys: seq<SharedEdabit<F>>, k: nat,
                              i: nat)
    requires SharedBatch(r, da, db, xs, ys, k) && i < |xs|
    ensures |xs[i].bits| == |ys[i].bits|
  {
    assert SharedBits(r, da, db, xs[i].bits, ys[i].bits);
  }
}
