/** Checking conversion tuples: the batched adder of the edaBit protocol, daBit conversion of its carry,
    and the cut-and-choose loop around them. */
module EdabitConversion {
  import opened Arith
  import opened Rings
  import opened Sums
  import opened PrimeField
  import opened Bits
  import opened Homcom
  import opened QuickSilver
  import opened Fdabit
  import opened FdabitRun

  datatype EdabitP<F> = EdabitP(bits: seq<MacProver<F>>, value: MacProver<Fp>)
  datatype EdabitV<F> = EdabitV(bits: seq<MacVerifier<F>>, value: MacVerifier<Fp>)

  ghost predicate AuthEdabit<F>(r: Ring<F>, d2: F, dp: Fp, e: EdabitP<F>, f: EdabitV<F>) {
    AuthAll(r, d2, e.bits, f.bits) && Auth(FP, dp, e.value, f.value)
  }

  /** Authenticated edaBits of k bits each; the bits are bits, the value is arbitrary. */
  ghost predicate AuthEdabits<F>(r: Ring<F>, d2: F, dp: Fp, es: seq<EdabitP<F>>, fs: seq<EdabitV<F>>, k: nat) {
    && |es| == |fs|
    && forall i :: 0 <= i < |es| ==>
         AuthEdabit(r, d2, dp, es[i], fs[i]) && |es[i].bits| == k && AreBits(r, Values(es[i].bits))
  }

  ghost function TupleDiscrepancy<F>(r: Ring<F>, e: EdabitP<F>): Fp {
    Discrepancy(r, Values(e.bits), e.value.x)
  }

  // ---- the adder ----

  ghost predicate LengthP<F>(es: seq<EdabitP<F>>, k: nat) {
    forall i :: 0 <= i < |es| ==> |es[i].bits| == k
  }

  ghost predicate LengthV<F>(es: seq<EdabitV<F>>, k: nat) {
    forall i :: 0 <= i < |es| ==> |es[i].bits| == k
  }

  function ColumnP<F>(es: seq<EdabitP<F>>, k: nat, i: nat): (s: seq<MacProver<F>>)
    requires LengthP(es, k) && i < k
    ensures |s| == |es|
  {
    seq(|es|, row requires 0 <= row < |es| => es[row].bits[i])
  }

  function ColumnV<F>(es: seq<EdabitV<F>>, k: nat, i: nat): (s: seq<MacVerifier<F>>)
    requires LengthV(es, k) && i < k
    ensures |s| == |es|
  {
    seq(|es|, row requires 0 <= row < |es| => es[row].bits[i])
  }

  function AddAllP<F>(r: Ring<F>, xs: seq<MacProver<F>>, ys: seq<MacProver<F>>): (zs: seq<MacProver<F>>)
    requires |xs| == |ys|
    ensures |zs| == |xs|
  {
    seq(|xs|, i requires 0 <= i < |xs| => AddP(r, xs[i], ys[i]))
  }

  function AddAllV<F>(r: Ring<F>, xs: seq<MacVerifier<F>>, ys: seq<MacVerifier<F>>): (zs: seq<MacVerifier<F>>)
    requires |xs| == |ys|
    ensures |zs| == |xs|
  {
    seq(|xs|, i requires 0 <= i < |xs| => AddV(r, xs[i], ys[i]))
  }

  function MulAll<F>(r: Ring<F>, xs: seq<MacProver<F>>, ys: seq<MacProver<F>>): (zs: seq<F>)
    requires |xs| == |ys|
    ensures |zs| == |xs|
  {
    seq(|xs|, i requires 0 <= i < |xs| => r.mul(xs[i].x, ys[i].x))
  }

  function ZipTriplesP<F>(xs: seq<MacProver<F>>, ys: seq<MacProver<F>>, zs: seq<MacProver<F>>): (ts: seq<TripleP<F>>)
    requires |xs| == |ys| == |zs|
    ensures |ts| == |xs|
  {
    seq(|xs|, i requires 0 <= i < |xs| => (xs[i], ys[i], zs[i]))
  }

  function ZipTriplesV<F>(xs: seq<MacVerifier<F>>, ys: seq<MacVerifier<F>>,
                          zs: seq<MacVerifier<F>>): (ts: seq<TripleV<F>>)
    requires |xs| == |ys| == |zs|
    ensures |ts| == |xs|
  {
    seq(|xs|, i requires 0 <= i < |xs| => (xs[i], ys[i], zs[i]))
  }

  lemma AddAllAuth<F(!new)>(r: Ring<F>, delta: F, xs: seq<MacProver<F>>, ys: seq<MacProver<F>>,
                            ks: seq<MacVerifier<F>>, ls: seq<MacVerifier<F>>)
    requires IsRing(r) && |xs| == |ys| && AuthAll(r, delta, xs, ks) && AuthAll(r, delta, ys, ls)
    ensures AuthAll(r, delta, AddAllP(r, xs, ys), AddAllV(r, ks, ls))
  {
    forall i | 0 <= i < |xs| ensures Auth(r, delta, AddAllP(r, xs, ys)[i], AddAllV(r, ks, ls)[i]) {
      AddAuth(r, delta, xs[i], ys[i], ks[i], ls[i]);
    }
  }

  /** The prover's work for one bit position over the whole batch. */
  method ProverColumn<F>(r: Ring<F>, k: nat, i: nat, xs: seq<EdabitP<F>>, ys: seq<EdabitP<F>>,
                         cs: seq<MacProver<F>>, zs: seq<seq<MacProver<F>>>)
    returns (and1: seq<MacProver<F>>, and2: seq<MacProver<F>>, products: seq<F>, zs': seq<seq<MacProver<F>>>)
    requires LengthP(xs, k) && LengthP(ys, k) && i < k && |xs| == |ys| == |cs| == |zs|
    ensures and1 == AddAllP(r, ColumnP(xs, k, i), cs) && and2 == AddAllP(r, ColumnP(ys, k, i), cs)
    ensures products == MulAll(r, and1, and2)
    ensures |zs'| == |zs|
    ensures forall n :: 0 <= n < |zs| ==> zs'[n] == zs[n] + [AddP(r, and1[n], ys[n].bits[i])]
  {
    and1, and2, products, zs' := [], [], [], zs;
    for n := 0 to |xs|
      invariant |and1| == |and2| == |products| == n && |zs'| == |zs|
      invariant forall j :: 0 <= j < n ==>
        and1[j] == AddP(r, xs[j].bits[i], cs[j]) && and2[j] == AddP(r, ys[j].bits[i], cs[j])
      invariant forall j :: 0 <= j < n ==> products[j] == r.mul(and1[j].x, and2[j].x)
      invariant forall j :: 0 <= j < n ==> zs'[j] == zs[j] + [AddP(r, and1[j], ys[j].bits[i])]
      invariant forall j :: n <= j < |zs| ==> zs'[j] == zs[j]
    {
      var x := AddP(r, xs[n].bits[i], cs[n]);
      var y := AddP(r, ys[n].bits[i], cs[n]);
      zs' := zs'[n := zs'[n] + [AddP(r, x, ys[n].bits[i])]];
      and1, and2, products := and1 + [x], and2 + [y], products + [r.mul(x.x, y.x)];
    }
  }

  method VerifierColumn<F>(r: Ring<F>, k: nat, i: nat, xs: seq<EdabitV<F>>, ys: seq<EdabitV<F>>,
                           cs: seq<MacVerifier<F>>, zs: seq<seq<MacVerifier<F>>>)
    returns (and1: seq<MacVerifier<F>>, and2: seq<MacVerifier<F>>, zs': seq<seq<MacVerifier<F>>>)
    requires LengthV(xs, k) && LengthV(ys, k) && i < k && |xs| == |ys| == |cs| == |zs|
    ensures and1 == AddAllV(r, ColumnV(xs, k, i), cs) && and2 == AddAllV(r, ColumnV(ys, k, i), cs)
    ensures |zs'| == |zs|
    ensures forall n :: 0 <= n < |zs| ==> zs'[n] == zs[n] + [AddV(r, and1[n], ys[n].bits[i])]
  {
    and1, and2, zs' := [], [], zs;
    for n := 0 to |xs|
      invariant |and1| == |and2| == n && |zs'| == |zs|
      invariant forall j :: 0 <= j < n ==>
        and1[j] == AddV(r, xs[j].bits[i], cs[j]) && and2[j] == AddV(r, ys[j].bits[i], cs[j])
      invariant forall j :: 0 <= j < n ==> zs'[j] == zs[j] + [AddV(r, and1[j], ys[j].bits[i])]
      invariant forall j :: n <= j < |zs| ==> zs'[j] == zs[j]
    {
      var x := AddV(r, xs[n].bits[i], cs[n]);
      var y := AddV(r, ys[n].bits[i], cs[n]);
      zs' := zs'[n := zs'[n] + [AddV(r, x, ys[n].bits[i])]];
      and1, and2 := and1 + [x], and2 + [y];
    }
  }

  /** After i positions: carries and sum bits are authenticated and have the values of the plain adder. */
  ghost predicate CarryState<F>(r: Ring<F>, delta: F, k: nat, i: nat, xs: seq<EdabitP<F>>, ys: seq<EdabitP<F>>,
                                cs: seq<MacProver<F>>, ds: seq<MacVerifier<F>>,
                                zs: seq<seq<MacProver<F>>>, ws: seq<seq<MacVerifier<F>>>)
    requires |xs| == |ys| && LengthP(xs, k) && LengthP(ys, k) && i <= k
  {
    && |cs| == |zs| == |ws| == |xs| && AuthAll(r, delta, cs, ds)
    && forall n :: 0 <= n < |xs| ==>
         && cs[n].x == CarryAt(r, Values(xs[n].bits), Values(ys[n].bits), i)
         && AuthAll(r, delta, zs[n], ws[n])
         && Values(zs[n]) == SumBits(r, Values(xs[n].bits), Values(ys[n].bits), i)
  }

  lemma CarryRow<F(!new)>(r: Ring<F>, delta: F, i: nat, xs: seq<F>, ys: seq<F>, c: F,
                          zs: seq<MacProver<F>>, ws: seq<MacVerifier<F>>, z: MacProver<F>, w: MacVerifier<F>)
    requires i < |xs| == |ys| && c == CarryAt(r, xs, ys, i)
    requires AuthAll(r, delta, zs, ws) && Values(zs) == SumBits(r, xs, ys, i)
    requires Auth(r, delta, z, w) && z.x == r.add(r.add(xs[i], c), ys[i])
    ensures AuthAll(r, delta, zs + [z], ws + [w]) && Values(zs + [z]) == SumBits(r, xs, ys, i + 1)
    ensures CarryAt(r, xs, ys, i + 1) == r.add(c, r.mul(r.add(xs[i], c), r.add(ys[i], c)))
  {
    hide Auth;
    assert Values(zs + [z]) == Values(zs) + [z.x];
  }

  lemma CarryColumnDone<F(!new)>(r: Ring<F>, delta: F, k: nat, i: nat, xs: seq<EdabitP<F>>, ys: seq<EdabitP<F>>,
                                 cs: seq<MacProver<F>>, ds: seq<MacVerifier<F>>,
                                 zs: seq<seq<MacProver<F>>>, ws: seq<seq<MacVerifier<F>>>,
                                 cs': seq<MacProver<F>>, ds': seq<MacVerifier<F>>,
                                 zs': seq<seq<MacProver<F>>>, ws': seq<seq<MacVerifier<F>>>,
                                 z: seq<MacProver<F>>, w: seq<MacVerifier<F>>)
    requires |xs| == |ys| && LengthP(xs, k) && LengthP(ys, k) && i < k
    requires CarryState(r, delta, k, i, xs, ys, cs, ds, zs, ws)
    requires |z| == |zs'| == |ws'| == |cs'| == |xs| && AuthAll(r, delta, z, w) && AuthAll(r, delta, cs', ds')
    requires forall n :: 0 <= n < |xs| ==> zs'[n] == zs[n] + [z[n]] && ws'[n] == ws[n] + [w[n]]
    requires forall n :: 0 <= n < |xs| ==>
               var c, x, y := cs[n].x, xs[n].bits[i].x, ys[n].bits[i].x;
               && z[n].x == r.add(r.add(x, c), y)
               && cs'[n].x == r.add(c, r.mul(r.add(x, c), r.add(y, c)))
    ensures CarryState(r, delta, k, i + 1, xs, ys, cs', ds', zs', ws')
  {
    hide CarryAt, SumBits, Auth;
    forall n | 0 <= n < |xs|
      ensures cs'[n].x == CarryAt(r, Values(xs[n].bits), Values(ys[n].bits), i + 1)
      ensures AuthAll(r, delta, zs'[n], ws'[n])
      ensures Values(zs'[n]) == SumBits(r, Values(xs[n].bits), Values(ys[n].bits), i + 1)
    {
      CarryRow(r, delta, i, Values(xs[n].bits), Values(ys[n].bits), cs[n].x, zs[n], ws[n], z[n], w[n]);
    }
  }

  lemma ColumnAuth<F(!new)>(r: Ring<F>, d2: F, dp: Fp, es: seq<EdabitP<F>>, fs: seq<EdabitV<F>>, k: nat, i: nat)
    requires AuthEdabits(r, d2, dp, es, fs, k) && i < k && LengthP(es, k) && LengthV(fs, k)
    ensures AuthAll(r, d2, ColumnP(es, k, i), ColumnV(fs, k, i))
  {
    hide Auth;
    forall n | 0 <= n < |es| ensures Auth(r, d2, es[n].bits[i], fs[n].bits[i]) {
      assert AuthEdabit(r, d2, dp, es[n], fs[n]);
    }
  }

  lemma KeyLengths<F>(r: Ring<F>, d2: F, dp: Fp, es: seq<EdabitP<F>>, fs: seq<EdabitV<F>>, k: nat)
    requires AuthEdabits(r, d2, dp, es, fs, k)
    ensures LengthV(fs, k) && |es| == |fs|
  {
    hide Auth;
    forall n | 0 <= n < |es| ensures |fs[n].bits| == k {
      assert AuthEdabit(r, d2, dp, es[n], fs[n]);
    }
  }

  // ---- the carry wires and products of a prover, as a reference ----

  /** The products of column i, for carries cs into it. */
  function ColumnTriples<F>(r: Ring<F>, k: nat, i: nat, xs: seq<EdabitP<F>>, ys: seq<EdabitP<F>>,
                            cs: seq<MacProver<F>>, us: seq<MacProver<F>>): (ts: seq<TripleP<F>>)
    requires LengthP(xs, k) && LengthP(ys, k) && i < k && |xs| == |ys| == |cs|
    ensures |ts| == |xs|
  {
    var and1, and2 := AddAllP(r, ColumnP(xs, k, i), cs), AddAllP(r, ColumnP(ys, k, i), cs);
    ZipTriplesP(and1, and2, CommitAll(MulAll(r, and1, and2), us))
  }

  function ThirdOf<F>(ts: seq<TripleP<F>>): (ps: seq<MacProver<F>>)
    ensures |ps| == |ts|
  {
    seq(|ts|, i requires 0 <= i < |ts| => ts[i].2)
  }

  /** The carries into position i, when the random values from number `used` on are taken. */
  ghost function CarryWires<F>(r: Ring<F>, supply: nat -> seq<MacProver<F>>, used: nat, k: nat, xs: seq<EdabitP<F>>,
                               ys: seq<EdabitP<F>>, i: nat): (cs: seq<MacProver<F>>)
    requires LengthP(xs, k) && LengthP(ys, k) && i <= k && |xs| == |ys|
    ensures |cs| == |xs|
  {
    var n := |xs|;
    if i == 0 then CommitAll(seq(n, _ => r.zero), Delivered(supply, used, n))
    else
      var cs := CarryWires(r, supply, used, k, xs, ys, i - 1);
      AddAllP(r, cs, ThirdOf(ColumnTriples(r, k, i - 1, xs, ys, cs, Delivered(supply, used + Times(i, n), n))))
  }

  /** All products up to position i. */
  ghost function CarryTriples<F>(r: Ring<F>, supply: nat -> seq<MacProver<F>>, used: nat, k: nat, xs: seq<EdabitP<F>>,
                                 ys: seq<EdabitP<F>>, i: nat): seq<TripleP<F>>
    requires LengthP(xs, k) && LengthP(ys, k) && i <= k && |xs| == |ys|
  {
    if i == 0 then []
    else
      CarryTriples(r, supply, used, k, xs, ys, i - 1)
      + ColumnTriples(r, k, i - 1, xs, ys, CarryWires(r, supply, used, k, xs, ys, i - 1),
                      Delivered(supply, used + Times(i, |xs|), |xs|))
  }

  lemma NextColumn<F>(r: Ring<F>, supply: nat -> seq<MacProver<F>>, used: nat, k: nat, xs: seq<EdabitP<F>>,
                      ys: seq<EdabitP<F>>, i: nat, cs: seq<MacProver<F>>, cs': seq<MacProver<F>>,
                      ts: seq<TripleP<F>>, before: seq<TripleP<F>>, from: nat)
    requires LengthP(xs, k) && LengthP(ys, k) && i < k && |xs| == |ys| && from == used + Times(i + 1, |xs|)
    requires cs == CarryWires(r, supply, used, k, xs, ys, i) && before == CarryTriples(r, supply, used, k, xs, ys, i)
    requires ts == ColumnTriples(r, k, i, xs, ys, cs, Delivered(supply, from, |xs|))
    requires cs' == AddAllP(r, cs, ThirdOf(ts))
    ensures cs' == CarryWires(r, supply, used, k, xs, ys, i + 1)
    ensures before + ts == CarryTriples(r, supply, used, k, xs, ys, i + 1)
  {
    hide ColumnTriples, AddAllP, ThirdOf;
  }

  method RunCarryColumn<F(!new, ==)>(p: FComProver<F>, v: FComVerifier<F>, ghost dp: Fp, k: nat, i: nat,
                                     xs: seq<EdabitP<F>>, ys: seq<EdabitP<F>>, xks: seq<EdabitV<F>>,
                                     yks: seq<EdabitV<F>>, cs: seq<MacProver<F>>, ds: seq<MacVerifier<F>>,
                                     zs: seq<seq<MacProver<F>>>, ws: seq<seq<MacVerifier<F>>>)
    returns (cs': seq<MacProver<F>>, ds': seq<MacVerifier<F>>, zs': seq<seq<MacProver<F>>>,
             ws': seq<seq<MacVerifier<F>>>, ts: seq<TripleP<F>>, ss: seq<TripleV<F>>)
    requires Linked(p, v) && |xs| == |ys| && i < k
    requires AuthEdabits(p.r, v.delta, dp, xs, xks, k) && AuthEdabits(p.r, v.delta, dp, ys, yks, k)
    requires LengthP(xs, k) && LengthP(ys, k) && CarryState(p.r, v.delta, k, i, xs, ys, cs, ds, zs, ws)
    modifies p, v
    ensures Linked(p, v)
    ensures CarryState(p.r, v.delta, k, i + 1, xs, ys, cs', ds', zs', ws')
    ensures |ts| == |xs| && AuthTriples(p.r, v.delta, ts, ss) && AllCorrect(p.r, ts) && |cs| == |xs|
    ensures ts == ColumnTriples(p.r, k, i, xs, ys, cs, p.Voles(old(p.used), |xs|))
    ensures cs' == AddAllP(p.r, cs, ThirdOf(ts))
    ensures p.used == old(p.used) + |xs| && v.used == old(v.used) + |xs|
  {
    hide CarryAt, SumBits, Auth, AreBits, FP;
    var r := p.r;
    ghost var delta := v.delta;
    assert IsRing(r);
    hide Linked, IsRing;
    KeyLengths(r, delta, dp, xs, xks, k);
    KeyLengths(r, delta, dp, ys, yks, k);
    ColumnAuth(r, delta, dp, xs, xks, k, i);
    ColumnAuth(r, delta, dp, ys, yks, k, i);
    hide AuthEdabits, LengthV, CarryState;
    var and1, and2, products;
    and1, and2, products, zs' := ProverColumn(r, k, i, xs, ys, cs, zs);
    var key1, key2;
    key1, key2, ws' := VerifierColumn(r, k, i, xks, yks, ds, ws);
    AddAllAuth(r, delta, ColumnP(xs, k, i), cs, ColumnV(xks, k, i), ds);
    AddAllAuth(r, delta, ColumnP(ys, k, i), cs, ColumnV(yks, k, i), ds);
    AddAllAuth(r, delta, and1, ColumnP(ys, k, i), key1, ColumnV(yks, k, i));
    var res, resKeys := RunInput(p, v, products);
    assert |res| == |Values(res)|;
    assert forall n :: 0 <= n < |res| ==> res[n].x == Values(res)[n] == products[n];
    ts, ss := ZipTriplesP(and1, and2, res), ZipTriplesV(key1, key2, resKeys);
    assert ThirdOf(ts) == res;
    cs', ds' := AddAllP(r, cs, res), AddAllV(r, ds, resKeys);
    AddAllAuth(r, delta, cs, res, ds, resKeys);
    CarryColumnDone(r, delta, k, i, xs, ys, cs, ds, zs, ws, cs', ds', zs', ws',
                    AddAllP(r, and1, ColumnP(ys, k, i)), AddAllV(r, key1, ColumnV(yks, k, i)));
  }

  lemma CarryStarts<F(!new)>(r: Ring<F>, delta: F, k: nat, xs: seq<EdabitP<F>>, ys: seq<EdabitP<F>>,
                             cs: seq<MacProver<F>>, ds: seq<MacVerifier<F>>, zs: seq<seq<MacProver<F>>>,
                             ws: seq<seq<MacVerifier<F>>>)
    requires |xs| == |ys| && LengthP(xs, k) && LengthP(ys, k)
    requires |cs| == |zs| == |ws| == |xs| && AuthAll(r, delta, cs, ds)
    requires forall n :: 0 <= n < |xs| ==> Values(cs)[n] == r.zero && zs[n] == [] && ws[n] == []
    ensures CarryState(r, delta, k, 0, xs, ys, cs, ds, zs, ws)
  {
    forall n | 0 <= n < |xs| ensures cs[n].x == r.zero {
      assert Values(cs)[n] == cs[n].x;
    }
  }

  /** The carries start as freshly authenticated zeros. */
  method RunFirstCarry<F(!new, ==)>(p: FComProver<F>, v: FComVerifier<F>, ghost k: nat, xs: seq<EdabitP<F>>,
                                    ys: seq<EdabitP<F>>)
    returns (cs: seq<MacProver<F>>, ds: seq<MacVerifier<F>>, zs: seq<seq<MacProver<F>>>, ws: seq<seq<MacVerifier<F>>>)
    requires Linked(p, v) && |xs| == |ys| && LengthP(xs, k) && LengthP(ys, k)
    modifies p, v
    ensures Linked(p, v) && CarryState(p.r, v.delta, k, 0, xs, ys, cs, ds, zs, ws)
    ensures cs == CarryWires(p.r, p.supply, old(p.used), k, xs, ys, 0)
    ensures p.used == old(p.used) + |xs| && v.used == old(v.used) + |xs|
  {
    hide Auth, Linked;
    cs, ds := RunInput(p, v, seq(|xs|, i => p.r.zero));
    assert |cs| == |Values(cs)|;
    zs, ws := seq(|xs|, i => []), seq(|xs|, i => []);
    CarryStarts(p.r, v.delta, k, xs, ys, cs, ds, zs, ws);
  }

  lemma NoTriples<F>(r: Ring<F>, delta: F)
    ensures AuthTriples(r, delta, [], []) && AllCorrect(r, [])
  {
  }

  lemma MoreTriples<F>(r: Ring<F>, delta: F, ts: seq<TripleP<F>>, ss: seq<TripleV<F>>, ts': seq<TripleP<F>>,
                       ss': seq<TripleV<F>>)
    requires AuthTriples(r, delta, ts, ss) && AuthTriples(r, delta, ts', ss') && AllCorrect(r, ts) && AllCorrect(r, ts')
    ensures AuthTriples(r, delta, ts + ts', ss + ss') && AllCorrect(r, ts + ts')
  {
    hide AuthTriple;
  }

  /** `bit_add_carry` by both parties: all products are checked in one batch at the end, by a message about exactly
      them, and the check accepts. */
  method RunBitAddCarry<F(!new, ==)>(p: FComProver<F>, v: FComVerifier<F>, ghost dp: Fp, chi: F, k: nat,
                                     xs: seq<EdabitP<F>>, ys: seq<EdabitP<F>>, xks: seq<EdabitV<F>>,
                                     yks: seq<EdabitV<F>>)
    returns (cs: seq<MacProver<F>>, ds: seq<MacVerifier<F>>, zs: seq<seq<MacProver<F>>>, ws: seq<seq<MacVerifier<F>>>,
             ok: bool, sent: ProductProof<F>)
    requires Linked(p, v) && |xs| == |ys|
    requires AuthEdabits(p.r, v.delta, dp, xs, xks, k) && AuthEdabits(p.r, v.delta, dp, ys, yks, k)
    requires LengthP(xs, k) && LengthP(ys, k)
    modifies p, v
    ensures Linked(p, v) && ok
    ensures CarryState(p.r, v.delta, k, k, xs, ys, cs, ds, zs, ws)
    ensures cs == CarryWires(p.r, p.supply, old(p.used), k, xs, ys, k)
    ensures sent == HonestProof(p.r, p.basis, chi, CarryTriples(p.r, p.supply, old(p.used), k, xs, ys, k),
                                p.Voles(old(p.used) + |xs| + Times(k, |xs|), |p.basis|))
    ensures var n := |xs| + Times(k, |xs|) + |p.basis|;
            p.used == old(p.used) + n && v.used == old(v.used) + n
  {
    hide Auth, AreBits, AuthEdabits, Linked, PowerSum, AuthTriple, CarryState, AuthTriples, AllCorrect, Defects,
         CarryWires, ColumnTriples, HonestProof, AddAllP;
    var num := |xs|;
    ghost var start := p.used;
    cs, ds, zs, ws := RunFirstCarry(p, v, k, xs, ys);
    var triples: seq<TripleP<F>>, keys: seq<TripleV<F>> := [], [];
    NoTriples(p.r, v.delta);
    for i := 0 to k
      invariant Linked(p, v) && CarryState(p.r, v.delta, k, i, xs, ys, cs, ds, zs, ws)
      invariant AuthTriples(p.r, v.delta, triples, keys) && AllCorrect(p.r, triples)
      invariant cs == CarryWires(p.r, p.supply, start, k, xs, ys, i)
      invariant triples == CarryTriples(p.r, p.supply, start, k, xs, ys, i)
      invariant p.used == old(p.used) + num + Times(i, num) && v.used == old(v.used) + num + Times(i, num)
    {
      var ts, ss;
      ghost var carries, from := cs, p.used;
      cs, ds, zs, ws, ts, ss := RunCarryColumn(p, v, dp, k, i, xs, ys, xks, yks, cs, ds, zs, ws);
      NextColumn(p.r, p.supply, start, k, xs, ys, i, carries, cs, ts, triples, from);
      MoreTriples(p.r, v.delta, triples, keys, ts, ss);
      triples, keys := triples + ts, keys + ss;
    }
    ok, sent := RunCheckMultiply(p, v, chi, triples, keys);
  }

  // ---- daBit conversion ----

  function ConvertP<F(==)>(r: Ring<F>, c: F, value: MacProver<Fp>): MacProver<Fp> {
    if c == r.one then AddCstP(FP, 1, NegP(FP, value)) else AddCstP(FP, 0, value)
  }

  function ConvertV<F(==)>(r: Ring<F>, delta: Fp, c: F, value: MacVerifier<Fp>): MacVerifier<Fp> {
    if c == r.one then AddCstV(FP, delta, 1, NegV(FP, value)) else AddCstV(FP, delta, 0, value)
  }

  lemma ConvertAuth<F(!new)>(r: Ring<F>, delta: Fp, c: F, p: MacProver<Fp>, v: MacVerifier<Fp>)
    requires Auth(FP, delta, p, v)
    ensures Auth(FP, delta, ConvertP(r, c, p), ConvertV(r, delta, c, v))
  {
    hide Auth;
    FpIsRing();
    NegAuth(FP, delta, p, v);
    AddCstAuth(FP, delta, 1, NegP(FP, p), NegV(FP, v));
    AddCstAuth(FP, delta, 0, p, v);
  }

  /** With a consistent daBit the converted value is the converted bit. */
  lemma ConvertExact<F(!new)>(r: Ring<F>, x: F, bit: F, p: MacProver<Fp>)
    requires IsBinary(r) && IsBit(r, x) && IsBit(r, bit) && p.x == BitNat(r, bit)
    ensures ConvertP(r, r.add(bit, x), p).x == BitNat(r, x)
  {
    hide FpAdd, FpNeg, IsRing;
    FpIsRing();
    AddBits(r, bit, x);
    OneMinus();
    AddZero(FP, p.x);
  }

  /** The bits that are opened: each one masked by its daBit. */
  function MaskedBits<F>(r: Ring<F>, ds: seq<DabitP<F>>, xs: seq<MacProver<F>>): (c: seq<F>)
    requires |ds| == |xs|
    ensures |c| == |xs|
  {
    Values(AddAllP(r, DabitBitsP(ds), xs))
  }

  function ConvertAll<F(==)>(r: Ring<F>, c: seq<F>, ds: seq<DabitP<F>>): (ms: seq<MacProver<Fp>>)
    requires |c| == |ds|
    ensures |ms| == |ds|
  {
    seq(|ds|, i requires 0 <= i < |ds| => ConvertP(r, c[i], ds[i].value))
  }

  /** `convert_bit_2_field` by both parties. */
  method RunConvertBits<F(!new, ==)>(p: FComProver<F>, v: FComVerifier<F>, hash: seq<F> -> seq<F>, dp: Fp,
                                     ds: seq<DabitP<F>>, ks: seq<DabitV<F>>, xs: seq<MacProver<F>>,
                                     xks: seq<MacVerifier<F>>)
    returns (ms: seq<MacProver<Fp>>, mks: seq<MacVerifier<Fp>>, c: seq<F>, ok: bool)
    requires Linked(p, v) && IsBinary(p.r) && Hashes(hash)
    requires |ds| == |xs| && AuthDabits(p.r, v.delta, dp, ds, ks) && AuthAll(p.r, v.delta, xs, xks)
    ensures ok && |ms| == |xs| && AuthAll(FP, dp, ms, mks)
    ensures c == MaskedBits(p.r, ds, xs) && ms == ConvertAll(p.r, c, ds)
    ensures AreBits(p.r, Values(xs)) && Consistent(p.r, ds) ==> forall i :: 0 <= i < |xs| ==>
      ms[i].x == BitNat(p.r, xs[i].x)
  {
    hide Auth, ConvertP, ConvertV;
    var r := p.r;
    var sums, keys := AddAllP(r, DabitBitsP(ds), xs), AddAllV(r, DabitBitsV(ks), xks);
    AddAllAuth(r, v.delta, DabitBitsP(ds), xs, DabitBitsV(ks), xks);
    c, ok := RunOpenValues(p, v, hash, sums, keys);
    ms := ConvertAll(r, c, ds);
    mks := seq(|ks|, i requires 0 <= i < |ks| => ConvertV(r, dp, c[i], ks[i].value));
    forall i | 0 <= i < |ds| ensures Auth(FP, dp, ms[i], mks[i]) {
      ConvertAuth(r, dp, c[i], ds[i].value, ks[i].value);
    }
    if AreBits(r, Values(xs)) && Consistent(r, ds) {
      forall i | 0 <= i < |xs| ensures ms[i].x == BitNat(r, xs[i].x) {
        assert Values(xs)[i] == xs[i].x;
        ConvertExact(r, xs[i].x, ds[i].bit.x, ds[i].value);
      }
    }
  }

  // ---- one pass of the loop ----

  function EPrimeP(k: nat, c: MacProver<Fp>, r: MacProver<Fp>, e: MacProver<Fp>): MacProver<Fp> {
    AddP(FP, AddP(FP, c, r), MulCstP(FP, FpNeg(ToFp(Pow2(k))), e))
  }

  function EPrimeV(k: nat, c: MacVerifier<Fp>, r: MacVerifier<Fp>, e: MacVerifier<Fp>): MacVerifier<Fp> {
    AddV(FP, AddV(FP, c, r), MulCstV(FP, FpNeg(ToFp(Pow2(k))), e))
  }

  /** The value that must be zero: c + r - 2^k e minus the opened sum bits. */
  function FinalP(k: nat, c: MacProver<Fp>, r: MacProver<Fp>, e: MacProver<Fp>, sum: Fp): MacProver<Fp> {
    AddCstP(FP, FpNeg(sum), EPrimeP(k, c, r, e))
  }

  function FinalV(delta: Fp, k: nat, c: MacVerifier<Fp>, r: MacVerifier<Fp>, e: MacVerifier<Fp>,
                  sum: Fp): MacVerifier<Fp> {
    AddCstV(FP, delta, FpNeg(sum), EPrimeV(k, c, r, e))
  }

  lemma FinalAuth(delta: Fp, k: nat, c: MacProver<Fp>, r: MacProver<Fp>, e: MacProver<Fp>, sum: Fp,
                  ck: MacVerifier<Fp>, rk: MacVerifier<Fp>, ek: MacVerifier<Fp>)
    requires Auth(FP, delta, c, ck) && Auth(FP, delta, r, rk) && Auth(FP, delta, e, ek)
    ensures Auth(FP, delta, FinalP(k, c, r, e, sum), FinalV(delta, k, ck, rk, ek, sum))
  {
    hide Auth, FpNeg, ToFp;
    FpIsRing();
    var t := FpNeg(ToFp(Pow2(k)));
    AddAuth(FP, delta, c, r, ck, rk);
    MulCstAuth(FP, delta, t, e, ek);
    AddAuth(FP, delta, AddP(FP, c, r), MulCstP(FP, t, e), AddV(FP, ck, rk), MulCstV(FP, t, ek));
    AddCstAuth(FP, delta, FpNeg(sum), EPrimeP(k, c, r, e), EPrimeV(k, ck, rk, ek));
  }

  /** With the carry converted correctly, the checked value is the sum of the two discrepancies. */
  lemma FinalValue<F(!new)>(r: Ring<F>, x: EdabitP<F>, y: EdabitP<F>, e: MacProver<Fp>, k: nat)
    requires IsBinary(r) && |x.bits| == |y.bits| == k && AreBits(r, Values(x.bits)) && AreBits(r, Values(y.bits))
    requires e.x == BitNat(r, CarryAt(r, Values(x.bits), Values(y.bits), k))
    ensures FinalP(k, x.value, y.value, e, ToFp(BitsValue(r, SumBits(r, Values(x.bits), Values(y.bits), k)))).x
         == FP.add(TupleDiscrepancy(r, x), TupleDiscrepancy(r, y))
  {
    hide FpNeg, FpAdd, FpMul, ToFp, BitsValue, SumBits, CarryAt, IsRing, Pow2;
    var sum := ToFp(BitsValue(r, SumBits(r, Values(x.bits), Values(y.bits), k)));
    DiscrepanciesAdd(r, Values(x.bits), Values(y.bits), x.value.x, y.value.x);
    FpIsRing();
    AddComm(FP, FpNeg(sum), EPrimeP(k, x.value, y.value, e).x);
  }
}
