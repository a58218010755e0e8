/** The conversion check as the two parties run it: random edaBits and daBits, the shuffle, the opened cut,
    and one pass of the loop per bucket. */
module EdabitConversionRun {
  import opened Arith
  import opened Rings
  import opened Sums
  import opened PrimeField
  import opened Bits
  import opened Homcom
  import opened QuickSilver
  import opened Fdabit
  import opened FdabitRun
  import opened EdabitConversion
  import opened Shuffle

  // ---- one pass of the loop ----

  lemma {:induction false} FlattenSlice<T>(rows: seq<seq<T>>, n: nat, i: nat)
    requires i < |rows| && forall k :: 0 <= k < |rows| ==> |rows[k]| == n
    ensures Times(i, n) + n <= |Flatten(rows)| && Flatten(rows)[Times(i, n)..Times(i, n) + n] == rows[i]
  {
    var m := |rows| - 1;
    var head := Flatten(rows[..m]);
    assert Flatten(rows) == head + rows[m];
    FlattenLength(rows[..m], n);
    if i < m {
      FlattenSlice(rows[..m], n, i);
      assert (head + rows[m])[Times(i, n)..Times(i, n) + n] == head[Times(i, n)..Times(i, n) + n];
    }
  }

  lemma {:induction false} FlattenRowsAuth<F(!new)>(r: Ring<F>, delta: F, ms: seq<seq<MacProver<F>>>,
                                                    ks: seq<seq<MacVerifier<F>>>)
    requires |ms| == |ks| && forall i :: 0 <= i < |ms| ==> AuthAll(r, delta, ms[i], ks[i])
    ensures AuthAll(r, delta, Flatten(ms), Flatten(ks))
  {
    hide Auth;
    if ms != [] {
      var n := |ms| - 1;
      FlattenRowsAuth(r, delta, ms[..n], ks[..n]);
    }
  }

  lemma RowOfOpened<F(!new)>(rows: seq<seq<MacProver<F>>>, k: nat, i: nat)
    requires i < |rows| && forall j :: 0 <= j < |rows| ==> |rows[j]| == k
    ensures Times(i, k) + k <= |Values(Flatten(rows))|
    ensures Values(Flatten(rows))[Times(i, k)..Times(i, k) + k] == Values(rows[i])
  {
    FlattenSlice(rows, k, i);
    assert Values(Flatten(rows))[Times(i, k)..Times(i, k) + k] == Values(Flatten(rows)[Times(i, k)..Times(i, k) + k]);
  }

  /** The i-th of n chunks of k elements. */
  function Chunk<T>(flat: seq<T>, k: nat, n: nat, i: nat): (c: seq<T>)
    requires |flat| == Times(n, k) && i < n
    ensures |c| == k
  {
    TimesMonotone(i + 1, n, k);
    flat[Times(i, k)..Times(i, k) + k]
  }

  lemma ChunkOfOpened<F(!new)>(rows: seq<seq<MacProver<F>>>, k: nat, i: nat)
    requires i < |rows| && forall j :: 0 <= j < |rows| ==> |rows[j]| == k
    ensures |Values(Flatten(rows))| == Times(|rows|, k)
    ensures Chunk(Values(Flatten(rows)), k, |rows|, i) == Values(rows[i])
  {
    FlattenLength(rows, k);
    RowOfOpened(rows, k, i);
  }

  /** The integers in the opened bits, chunk by chunk. */
  method SumsOf<F(==)>(r: Ring<F>, flat: seq<F>, k: nat, n: nat) returns (sums: seq<Fp>)
    requires |flat| == Times(n, k)
    ensures |sums| == n && forall i :: 0 <= i < n ==> sums[i] == ToFp(BitsValue(r, Chunk(flat, k, n, i)))
  {
    hide BitsValue, ToFp;
    sums := [];
    var offset := 0;
    for i := 0 to n
      invariant |sums| == i && offset == Times(i, k)
      invariant forall j :: 0 <= j < i ==> sums[j] == ToFp(BitsValue(r, Chunk(flat, k, n, j)))
    {
      assert Chunk(flat, k, n, i) == flat[offset..offset + k] by {
        TimesMonotone(i + 1, n, k);
      }
      TimesMonotone(i + 1, n, k);
      var sum := ConvertBitsToField(r, flat[offset..offset + k]);
      sums := sums + [sum];
      offset := offset + k;
    }
  }

  function FinalsP<F>(k: nat, xs: seq<EdabitP<F>>, ys: seq<EdabitP<F>>, es: seq<MacProver<Fp>>,
                      sums: seq<Fp>): (fs: seq<MacProver<Fp>>)
    requires |xs| == |ys| == |es| == |sums|
    ensures |fs| == |xs|
  {
    seq(|xs|, i requires 0 <= i < |xs| => FinalP(k, xs[i].value, ys[i].value, es[i], sums[i]))
  }

  function FinalsV<F>(delta: Fp, k: nat, xs: seq<EdabitV<F>>, ys: seq<EdabitV<F>>, es: seq<MacVerifier<Fp>>,
                      sums: seq<Fp>): (fs: seq<MacVerifier<Fp>>)
    requires |xs| == |ys| == |es| == |sums|
    ensures |fs| == |xs|
  {
    seq(|xs|, i requires 0 <= i < |xs| => FinalV(delta, k, xs[i].value, ys[i].value, es[i], sums[i]))
  }

  /** Tuple by tuple, the discrepancy of the tuple plus that of its partner. */
  ghost function PairDiscrepancies<F>(r: Ring<F>, xs: seq<EdabitP<F>>, ys: seq<EdabitP<F>>): (ds: seq<Fp>)
    requires |xs| == |ys|
    ensures |ds| == |xs|
  {
    seq(|xs|, i requires 0 <= i < |xs| => FpAdd(TupleDiscrepancy(r, xs[i]), TupleDiscrepancy(r, ys[i])))
  }

  lemma FinalsMean<F(!new)>(r: Ring<F>, d2: F, dp: Fp, k: nat, xs: seq<EdabitP<F>>, xks: seq<EdabitV<F>>,
                            ys: seq<EdabitP<F>>, yks: seq<EdabitV<F>>, cs: seq<MacProver<F>>,
                            es: seq<MacProver<Fp>>, eks: seq<MacVerifier<Fp>>, zs: seq<seq<MacProver<F>>>,
                            sums: seq<Fp>)
    requires IsBinary(r) && |xs| == |ys| == |cs| == |es| == |zs| == |sums|
    requires AuthEdabits(r, d2, dp, xs, xks, k) && AuthEdabits(r, d2, dp, ys, yks, k) && AuthAll(FP, dp, es, eks)
    requires forall i :: 0 <= i < |xs| ==>
               && cs[i].x == CarryAt(r, Values(xs[i].bits), Values(ys[i].bits), k)
               && sums[i] == ToFp(BitsValue(r, SumBits(r, Values(xs[i].bits), Values(ys[i].bits), k)))
    ensures AuthAll(FP, dp, FinalsP(k, xs, ys, es, sums), FinalsV(dp, k, xks, yks, eks, sums))
    ensures (forall i :: 0 <= i < |xs| ==> es[i].x == BitNat(r, cs[i].x))
            ==> Values(FinalsP(k, xs, ys, es, sums)) == PairDiscrepancies(r, xs, ys)
  {
    hide Auth, FinalP, FinalV, CarryAt, SumBits, BitsValue, BitNat, TupleDiscrepancy, IsBinary, ToFp, FpAdd, AreBits;
    forall i | 0 <= i < |xs|
      ensures Auth(FP, dp, FinalsP(k, xs, ys, es, sums)[i], FinalsV(dp, k, xks, yks, eks, sums)[i])
      ensures es[i].x == BitNat(r, cs[i].x)
              ==> FinalsP(k, xs, ys, es, sums)[i].x == FP.add(TupleDiscrepancy(r, xs[i]), TupleDiscrepancy(r, ys[i]))
    {
      assert AuthEdabit(r, d2, dp, xs[i], xks[i]) && AuthEdabit(r, d2, dp, ys[i], yks[i]);
      FinalAuth(dp, k, xs[i].value, ys[i].value, es[i], sums[i], xks[i].value, yks[i].value, eks[i]);
      if es[i].x == BitNat(r, cs[i].x) {
        FinalValue(r, xs[i], ys[i], es[i], k);
      }
    }
  }

  /** The verifier's verdict of one pass: delta * sum(chi_i * (discrepancy of tuple i + that of its partner)) = 0. */
  ghost predicate PassAccepts<F>(r: Ring<F>, delta: Fp, chis: seq<Fp>, xs: seq<EdabitP<F>>, ys: seq<EdabitP<F>>)
    requires |chis| == |xs| == |ys|
  {
    FP.mul(delta, Dot(FP, chis, PairDiscrepancies(r, xs, ys))) == 0
  }

  /** Opening all sum bits in one batch, and the integers they stand for. */
  method RunOpenSums<F(!new, ==)>(p: FComProver<F>, v: FComVerifier<F>, hash: seq<F> -> seq<F>, k: nat,
                                  zs: seq<seq<MacProver<F>>>, zks: seq<seq<MacVerifier<F>>>)
    returns (sums: seq<Fp>, ok: bool)
    requires Linked(p, v) && |zs| == |zks| && Hashes(hash)
    requires forall i :: 0 <= i < |zs| ==> |zs[i]| == k && AuthAll(p.r, v.delta, zs[i], zks[i])
    ensures ok && |sums| == |zs|
    ensures forall i :: 0 <= i < |zs| ==> sums[i] == ToFp(BitsValue(p.r, Values(zs[i])))
  {
    hide Auth, Linked, BitsValue, Flatten, Chunk, Times, ToFp, Values;
    FlattenRowsAuth(p.r, v.delta, zs, zks);
    var clear;
    clear, ok := RunOpenValues(p, v, hash, Flatten(zs), Flatten(zks));
    forall i | 0 <= i < |zs| ensures |clear| == Times(|zs|, k) && Chunk(clear, k, |zs|, i) == Values(zs[i]) {
      ChunkOfOpened(zs, k, i);
    }
    if zs == [] {
      return [], ok;
    }
    ChunkOfOpened(zs, k, 0);
    sums := SumsOf(p.r, clear, k, |zs|);
  }

  /** What the prover sends in one pass: the message about the adder's products, the opened masked carries and sums,
      and the combined mac of the final values. */
  datatype PassTrace<F> = PassTrace(sent: ProductProof<F>, masked: seq<F>, sums: seq<Fp>, zero: Fp)

  ghost predicate PassTraced<F>(s: Stock<F>, chi: F, chis: seq<Fp>, k: nat, xs: seq<EdabitP<F>>, ys: seq<EdabitP<F>>,
                                ds: seq<DabitP<F>>, t: PassTrace<F>)
  {
    && |xs| == |ys| == |ds| == |chis| == |t.sums| && LengthP(xs, k) && LengthP(ys, k)
    && var n := |xs|;
       && t.sent == HonestProof(s.r, s.basis2, chi, CarryTriples(s.r, s.s2, s.u2, k, xs, ys, k),
                                s.Binary(n + Times(k, n), |s.basis2|))
       && t.masked == MaskedBits(s.r, ds, CarryWires(s.r, s.s2, s.u2, k, xs, ys, k))
       && (forall i :: 0 <= i < n ==>
             t.sums[i] == ToFp(BitsValue(s.r, SumBits(s.r, Values(xs[i].bits), Values(ys[i].bits), k))))
       && t.zero == DotMacs(FP, chis, FinalsP(k, xs, ys, ConvertAll(s.r, t.masked, ds), t.sums))
  }

  /** `conv_loop` by both parties, with any random edaBits as partners and consistent daBits. */
  method RunConvLoop<F(!new, ==)>(p2: FComProver<F>, v2: FComVerifier<F>, pp: FComProver<Fp>, vp: FComVerifier<Fp>,
                                  hash: seq<F> -> seq<F>, chi: F, chis: seq<Fp>, k: nat,
                                  xs: seq<EdabitP<F>>, xks: seq<EdabitV<F>>, ys: seq<EdabitP<F>>, yks: seq<EdabitV<F>>,
                                  ds: seq<DabitP<F>>, ks: seq<DabitV<F>>)
    returns (okP: bool, okV: bool, trace: PassTrace<F>)
    requires Linked(p2, v2) && Linked(pp, vp) && pp.r == FP && IsBinary(p2.r) && Hashes(hash)
    requires |xs| == |ys| == |ds| == |chis|
    requires AuthEdabits(p2.r, v2.delta, vp.delta, xs, xks, k) && AuthEdabits(p2.r, v2.delta, vp.delta, ys, yks, k)
    requires LengthP(xs, k) && LengthP(ys, k)
    requires AuthDabits(p2.r, v2.delta, vp.delta, ds, ks) && Consistent(p2.r, ds)
    requires {p2 as object, v2} !! {pp as object, vp}
    modifies p2, v2
    ensures Linked(p2, v2) && Linked(pp, vp)
    ensures okV <==> PassAccepts(p2.r, vp.delta, chis, xs, ys)
    ensures okP <==> forall i :: 0 <= i < |xs| ==> PairDiscrepancies(p2.r, xs, ys)[i] == 0
    ensures okP ==> okV
    ensures PassTraced(old(StockOf(p2, pp)), chi, chis, k, xs, ys, ds, trace)
    ensures var n := |xs| + Times(k, |xs|) + |p2.basis|;
            p2.used == old(p2.used) + n && v2.used == old(v2.used) + n
  {
    hide Auth, AreBits, AuthEdabits, Linked, CarryState, AuthDabits, Consistent, TupleDiscrepancy, Times, Chunk,
         CarryAt, SumBits, BitsValue, IsRing, Dot, AuthEdabit, IsBit, FinalsP, FinalsV, PairDiscrepancies, Values,
         BitNat, ToFp, IsBinary, Pow2, FpMul, CarryWires, CarryTriples, HonestProof, MaskedBits, ConvertAll, DotMacs;
    var r := p2.r;
    var cs, cks, zs, zks, okM, sent := RunBitAddCarry(p2, v2, vp.delta, chi, k, xs, ys, xks, yks);
    CarryStateParts(r, v2.delta, k, xs, ys, cs, cks, zs, zks, vp.delta, xks, yks);
    var es, eks, masked, okC := RunConvertBits(p2, v2, hash, vp.delta, ds, ks, cs, cks);
    var sums, okO := RunOpenSums(p2, v2, hash, k, zs, zks);
    FinalsMean(r, v2.delta, vp.delta, k, xs, xks, ys, yks, cs, es, eks, zs, sums);
    EdabitLengths(r, v2.delta, vp.delta, xs, xks, k);
    EdabitLengths(r, v2.delta, vp.delta, ys, yks, k);
    var fs, fks := FinalsP(k, xs, ys, es, sums), FinalsV(vp.delta, k, xks, yks, eks, sums);
    var zero;
    okP, okV, zero := RunZeroCheck(pp, vp, chis, fs, fks);
    trace := PassTrace(sent, masked, sums, zero);
    okV := okM && okC && okO && okV;
    okP := okM && okC && okO && okP;
  }

  /** A batched zero check by both parties. */
  method RunZeroCheck<F(!new, ==)>(p: FComProver<F>, v: FComVerifier<F>, chis: seq<F>, ps: seq<MacProver<F>>,
                                   vs: seq<MacVerifier<F>>)
    returns (okP: bool, okV: bool, m: F)
    requires Linked(p, v) && |chis| == |ps| && AuthAll(p.r, v.delta, ps, vs)
    ensures okV <==> p.r.mul(v.delta, Dot(p.r, chis, Values(ps))) == p.r.zero
    ensures okP <==> forall i :: 0 <= i < |ps| ==> Values(ps)[i] == p.r.zero
    ensures okP ==> okV
    ensures m == DotMacs(p.r, chis, ps)
  {
    hide Dot;
    m, okP := p.CheckZero(chis, ps);
    okV := v.CheckZero(chis, vs, m);
    ZeroCheckExact(p.r, v.delta, chis, ps, vs);
    assert forall i :: 0 <= i < |ps| ==> Values(ps)[i] == ps[i].x;
  }

  lemma EdabitLengths<F>(r: Ring<F>, d2: F, dp: Fp, es: seq<EdabitP<F>>, fs: seq<EdabitV<F>>, k: nat)
    requires AuthEdabits(r, d2, dp, es, fs, k)
    ensures |es| == |fs|
  {
  }

  lemma CarryStateParts<F(!new)>(r: Ring<F>, delta: F, k: nat, xs: seq<EdabitP<F>>, ys: seq<EdabitP<F>>,
                                 cs: seq<MacProver<F>>, cks: seq<MacVerifier<F>>, zs: seq<seq<MacProver<F>>>,
                                 zks: seq<seq<MacVerifier<F>>>, dp: Fp, xks: seq<EdabitV<F>>, yks: seq<EdabitV<F>>)
    requires IsBinary(r) && |xs| == |ys| && LengthP(xs, k) && LengthP(ys, k)
    requires AuthEdabits(r, delta, dp, xs, xks, k) && AuthEdabits(r, delta, dp, ys, yks, k)
    requires CarryState(r, delta, k, k, xs, ys, cs, cks, zs, zks)
    ensures |cs| == |zs| == |zks| == |xs| && AuthAll(r, delta, cs, cks) && AreBits(r, Values(cs))
    ensures forall i :: 0 <= i < |xs| ==>
              && AuthAll(r, delta, zs[i], zks[i]) && |zs[i]| == k
              && Values(zs[i]) == SumBits(r, Values(xs[i].bits), Values(ys[i].bits), k)
              && cs[i].x == CarryAt(r, Values(xs[i].bits), Values(ys[i].bits), k)
  {
    hide CarryAt, SumBits, Auth;
    forall i | 0 <= i < |xs| ensures IsBit(r, Values(cs)[i]) && |zs[i]| == k {
      AdderBits(r, Values(xs[i].bits), Values(ys[i].bits), k);
      assert |zs[i]| == |Values(zs[i])|;
    }
  }

  // ---- random material ----

  ghost predicate DrawsBits<F(!new)>(p: FComProver<F>) {
    forall x {:trigger p.prime(x)} :: p.prime(x) ==> IsBit(p.r, x)
  }

  lemma DrawnBit<F(!new)>(p: FComProver<F>, x: MacProver<F>)
    requires DrawsBits(p) && p.prime(x.x)
    ensures IsBit(p.r, x.x)
  {
  }

  method RunRandomBits<F(!new, ==)>(p: FComProver<F>, v: FComVerifier<F>, n: nat)
    returns (ps: seq<MacProver<F>>, vs: seq<MacVerifier<F>>)
    requires Linked(p, v) && DrawsBits(p)
    modifies p, v
    ensures Linked(p, v) && AuthAll(p.r, v.delta, ps, vs) && |ps| == n && AreBits(p.r, Values(ps))
    ensures ps == p.Voles(old(p.used), n)
    ensures p.used == old(p.used) + n && v.used == old(v.used) + n
  {
    hide Linked, Auth, IsBit, DrawsBits;
    hide p.Voles;
    ps, vs := [], [];
    NoVoles(p, v);
    for i := 0 to n
      invariant Linked(p, v) && AuthAll(p.r, v.delta, ps, vs) && |ps| == i && AreBits(p.r, Values(ps))
      invariant ps == p.Voles(old(p.used), i)
      invariant p.used == old(p.used) + i && v.used == old(v.used) + i
    {
      var x, k := RunRandom(p, v);
      MoreVoles(p, v, old(p.used), i, 1);
      assert IsBit(p.r, x.x) by { DrawnBit(p, x); }
      assert Values(ps + [x]) == Values(ps) + [x.x];
      ps, vs := ps + [x], vs + [k];
    }
  }

  method RunRandomRows<F(!new, ==)>(p: FComProver<F>, v: FComVerifier<F>, k: nat, n: nat)
    returns (ps: seq<seq<MacProver<F>>>, vs: seq<seq<MacVerifier<F>>>)
    requires Linked(p, v) && DrawsBits(p)
    modifies p, v
    ensures Linked(p, v) && |ps| == |vs| == n
    ensures forall i :: 0 <= i < n ==>
      AuthAll(p.r, v.delta, ps[i], vs[i]) && |ps[i]| == k && AreBits(p.r, Values(ps[i]))
    ensures forall i :: 0 <= i < n ==> ps[i] == p.Voles(old(p.used) + Times(i, k), k)
    ensures p.used == old(p.used) + Times(n, k) && v.used == old(v.used) + Times(n, k)
  {
    hide Linked, Auth, IsBit, Values, AreBits, DrawsBits, Delivered, AuthAll, Times;
    ps, vs := [], [];
    NoTimes(k);
    for i := 0 to n
      invariant Linked(p, v) && |ps| == |vs| == i
      invariant forall j :: 0 <= j < i ==>
        AuthAll(p.r, v.delta, ps[j], vs[j]) && |ps[j]| == k && AreBits(p.r, Values(ps[j]))
      invariant forall j :: 0 <= j < i ==> ps[j] == p.Voles(old(p.used) + Times(j, k), k)
      invariant p.used == old(p.used) + Times(i, k) && v.used == old(v.used) + Times(i, k)
    {
      NextTimes(i, k);
      var x, y := RunRandomBits(p, v, k);
      ps, vs := ps + [x], vs + [y];
    }
  }

  method RowValues<F(==)>(r: Ring<F>, rows: seq<seq<MacProver<F>>>) returns (xs: seq<Fp>)
    ensures |xs| == |rows| && forall i :: 0 <= i < |rows| ==> xs[i] == ToFp(BitsValue(r, Values(rows[i])))
  {
    hide ToFp, BitsValue;
    xs := [];
    for i := 0 to |rows|
      invariant |xs| == i && forall j :: 0 <= j < i ==> xs[j] == ToFp(BitsValue(r, Values(rows[j])))
    {
      var x := ConvertBitsToField(r, Values(rows[i]));
      xs := xs + [x];
    }
  }

  /** n edaBits of k bits, made of the next random values. */
  ghost function DrawnEdabits<F>(s: Stock<F>, k: nat, n: nat): (es: seq<EdabitP<F>>)
    ensures |es| == n
  {
    var rows := seq(n, i requires 0 <= i < n => s.Binary(Times(i, k), k));
    var ms := CommitAll(seq(n, i requires 0 <= i < n => ToFp(BitsValue(s.r, Values(rows[i])))), s.Prime(0, n));
    seq(n, i requires 0 <= i < n => EdabitP(rows[i], ms[i]))
  }

  /** Random bits, each with a number committed next to it. */
  function PairUp<F>(bits: seq<MacProver<F>>, xs: seq<Fp>, us: seq<MacProver<Fp>>): (ds: seq<DabitP<F>>)
    requires |xs| == |bits|
    ensures |ds| == |bits|
  {
    seq(|bits|, i requires 0 <= i < |bits| => DabitP(bits[i], CommitAll(xs, us)[i]))
  }

  lemma PairUpSnoc<F>(bits: seq<MacProver<F>>, xs: seq<Fp>, us: seq<MacProver<Fp>>, b: MacProver<F>, x: Fp,
                      u: MacProver<Fp>)
    requires |xs| == |us| == |bits|
    ensures PairUp(bits + [b], xs + [x], us + [u]) == PairUp(bits, xs, us) + [DabitP(b, CommitAll([x], [u])[0])]
  {
    CommitAppend(xs, us, [x], [u]);
    hide CommitAll;
    assert PairUp(bits + [b], xs + [x], us + [u])[|bits|] == DabitP(b, CommitAll([x], [u])[0]);
  }

  ghost function DrawnDabits<F>(s: Stock<F>, n: nat): seq<DabitP<F>> {
    PairUp(s.Binary(0, n), BitNumbers(s.r, Values(s.Binary(0, n))), s.Prime(0, n))
  }

  /** `random_edabits` by both parties: consistent edaBits, made of the next random values. */
  method RunRandomEdabits<F(!new, ==)>(p2: FComProver<F>, v2: FComVerifier<F>, pp: FComProver<Fp>, vp: FComVerifier<Fp>,
                                       k: nat, n: nat)
    returns (es: seq<EdabitP<F>>, fs: seq<EdabitV<F>>)
    requires Linked(p2, v2) && Linked(pp, vp) && pp.r == FP && DrawsBits(p2)
    requires {p2 as object, v2} !! {pp as object, vp}
    modifies p2, v2, pp, vp
    ensures Linked(p2, v2) && Linked(pp, vp)
    ensures |es| == n && AuthEdabits(p2.r, v2.delta, vp.delta, es, fs, k) && LengthP(es, k)
    ensures forall i :: 0 <= i < n ==> TupleDiscrepancy(p2.r, es[i]) == 0
    ensures es == DrawnEdabits(old(StockOf(p2, pp)), k, n)
    ensures p2.used == old(p2.used) + Times(n, k) && v2.used == old(v2.used) + Times(n, k)
    ensures pp.used == old(pp.used) + n && vp.used == old(vp.used) + n
  {
    hide Linked, Auth, IsBit, BitsValue, Values, AreBits, ToFp, FpAdd, FpNeg, Times, DrawsBits, Delivered, DrawnEdabits,
         AuthEdabit, CommitAll;
    ghost var s := StockOf(p2, pp);
    var rows, keys := RunRandomRows(p2, v2, k, n);
    var xs := RowValues(p2.r, rows);
    var ms, mks := RunInput(pp, vp, xs);
    assert |ms| == n && forall i :: 0 <= i < n ==> ms[i].x == xs[i] by {
      ValuesAt(ms, xs);
    }
    es := seq(n, i requires 0 <= i < n => EdabitP(rows[i], ms[i]));
    fs := seq(n, i requires 0 <= i < n => EdabitV(keys[i], mks[i]));
    EdabitsDrawn(s, k, n, rows, xs, ms, es);
    forall i | 0 <= i < n
      ensures TupleDiscrepancy(p2.r, es[i]) == 0 && AuthEdabit(p2.r, v2.delta, vp.delta, es[i], fs[i])
      ensures |es[i].bits| == k && AreBits(p2.r, Values(es[i].bits))
    {
      EdabitMade(p2.r, v2.delta, vp.delta, es[i], fs[i]);
    }
  }

  lemma EdabitMade<F(!new)>(r: Ring<F>, d2: F, dp: Fp, e: EdabitP<F>, f: EdabitV<F>)
    requires AuthAll(r, d2, e.bits, f.bits) && Auth(FP, dp, e.value, f.value) && AreBits(r, Values(e.bits))
    requires e.value.x == ToFp(BitsValue(r, Values(e.bits)))
    ensures AuthEdabit(r, d2, dp, e, f) && TupleDiscrepancy(r, e) == 0
  {
    hide Auth, BitsValue, ToFp, FpAdd, FpNeg, AreBits;
    FpIsRing();
    SubIsZero(FP, e.value.x, ToFp(BitsValue(r, Values(e.bits))));
  }

  lemma EdabitsDrawn<F(!new)>(s: Stock<F>, k: nat, n: nat, rows: seq<seq<MacProver<F>>>, xs: seq<Fp>,
                              ms: seq<MacProver<Fp>>, es: seq<EdabitP<F>>)
    requires |rows| == |xs| == |ms| == |es| == n && ms == CommitAll(xs, s.Prime(0, n))
    requires forall i :: 0 <= i < n ==>
      && rows[i] == s.Binary(Times(i, k), k) && xs[i] == ToFp(BitsValue(s.r, Values(rows[i])))
      && es[i] == EdabitP(rows[i], ms[i])
    ensures es == DrawnEdabits(s, k, n)
  {
    hide CommitAll, Delivered, BitsValue, ToFp, Times;
    assert rows == seq(n, i requires 0 <= i < n => s.Binary(Times(i, k), k));
    assert xs == seq(n, i requires 0 <= i < n => ToFp(BitsValue(s.r, Values(rows[i]))));
  }

  lemma ValuesAt<F>(ps: seq<MacProver<F>>, xs: seq<F>)
    requires Values(ps) == xs
    ensures |ps| == |xs| && forall i :: 0 <= i < |xs| ==> ps[i].x == xs[i]
  {
    assert |ps| == |Values(ps)|;
    assert forall i :: 0 <= i < |xs| ==> Values(ps)[i] == ps[i].x;
  }

  lemma DrawnAre<F>(s: Stock<F>, n: nat, bits: seq<MacProver<F>>, xs: seq<Fp>, ms: seq<MacProver<Fp>>,
                    ds: seq<DabitP<F>>)
    requires bits == s.Binary(0, n) && |bits| == |xs| == |ms| == |ds| == n
    requires forall i :: 0 <= i < n ==> xs[i] == BitNat(s.r, bits[i].x)
    requires ms == CommitAll(xs, s.Prime(0, n)) && forall i :: 0 <= i < n ==> ds[i] == DabitP(bits[i], ms[i])
    ensures ds == DrawnDabits(s, n)
  {
    hide Delivered, BitNat, CommitAll;
    assert |Values(bits)| == n;
    forall i | 0 <= i < n ensures xs[i] == BitNumbers(s.r, Values(bits))[i] {
      assert Values(bits)[i] == bits[i].x;
    }
    assert xs == BitNumbers(s.r, Values(bits));
  }

  /** `random_dabits` by both parties: consistent daBits, made of the next random values. */
  method RunRandomDabits<F(!new, ==)>(p2: FComProver<F>, v2: FComVerifier<F>, pp: FComProver<Fp>, vp: FComVerifier<Fp>,
                                      n: nat)
    returns (ds: seq<DabitP<F>>, ks: seq<DabitV<F>>)
    requires Linked(p2, v2) && Linked(pp, vp) && pp.r == FP && DrawsBits(p2)
    requires {p2 as object, v2} !! {pp as object, vp}
    modifies p2, v2, pp, vp
    ensures Linked(p2, v2) && Linked(pp, vp)
    ensures |ds| == n && AuthDabits(p2.r, v2.delta, vp.delta, ds, ks) && Consistent(p2.r, ds)
    ensures ds == DrawnDabits(old(StockOf(p2, pp)), n)
    ensures p2.used == old(p2.used) + n && v2.used == old(v2.used) + n
    ensures pp.used == old(pp.used) + n && vp.used == old(vp.used) + n
  {
    hide Linked, Auth, IsBit, BitNat, DrawsBits, Delivered, DrawnDabits;
    var r := p2.r;
    ghost var s := StockOf(p2, pp);
    var bits, keys := RunRandomBits(p2, v2, n);
    var xs: seq<Fp> := seq(n, i requires 0 <= i < n => BitNat(r, bits[i].x) as Fp);
    var ms, mks := RunInput(pp, vp, xs);
    ValuesAt(ms, xs);
    ds := seq(n, i requires 0 <= i < n => DabitP(bits[i], ms[i]));
    ks := seq(n, i requires 0 <= i < n => DabitV(keys[i], mks[i]));
    forall i | 0 <= i < n ensures IsBit(r, ds[i].bit.x) && ds[i].value.x == BitNat(r, ds[i].bit.x) {
      assert Values(bits)[i] == bits[i].x;
    }
    DrawnAre(s, n, bits, xs, ms, ds);
  }

  // ---- the shuffle keeps both parties' lists aligned ----

  method ShuffleList<T>(picks: nat -> nat, s: seq<T>) returns (t: seq<T>)
    requires Draws(picks)
    ensures t == Shuffled(picks, s, Last(|s|))
  {
    if s == [] {
      return [];
    }
    var v := new T[|s|](i requires 0 <= i < |s| => s[i]);
    assert v[..] == s;
    GeneratePermutation(picks, v);
    t := v[..];
  }

  ghost predicate GoodEdabit<F>(r: Ring<F>, d2: F, dp: Fp, k: nat, e: EdabitP<F>, f: EdabitV<F>) {
    AuthEdabit(r, d2, dp, e, f) && |e.bits| == k && AreBits(r, Values(e.bits)) && TupleDiscrepancy(r, e) == 0
  }

  ghost predicate GoodEdabits<F>(r: Ring<F>, d2: F, dp: Fp, k: nat, es: seq<EdabitP<F>>, fs: seq<EdabitV<F>>) {
    |es| == |fs| && forall i :: 0 <= i < |es| ==> GoodEdabit(r, d2, dp, k, es[i], fs[i])
  }

  lemma ShuffledEdabits<F(!new)>(picks: nat -> nat, r: Ring<F>, d2: F, dp: Fp, es: seq<EdabitP<F>>, fs: seq<EdabitV<F>>,
                                 k: nat)
    requires Draws(picks) && GoodEdabits(r, d2, dp, k, es, fs)
    ensures GoodEdabits(r, d2, dp, k, Shuffled(picks, es, Last(|es|)), Shuffled(picks, fs, Last(|fs|)))
  {
    hide GoodEdabit, Shuffled;
    ShuffleAligned(picks, es, fs, (e, f) => GoodEdabit(r, d2, dp, k, e, f));
  }

  ghost predicate GoodDabit<F>(r: Ring<F>, d2: F, dp: Fp, d: DabitP<F>, k: DabitV<F>) {
    && Auth(r, d2, d.bit, k.bit) && Auth(FP, dp, d.value, k.value)
    && IsBit(r, d.bit.x) && d.value.x == BitNat(r, d.bit.x)
  }

  ghost predicate GoodDabits<F>(r: Ring<F>, d2: F, dp: Fp, ds: seq<DabitP<F>>, ks: seq<DabitV<F>>) {
    |ds| == |ks| && forall i :: 0 <= i < |ds| ==> GoodDabit(r, d2, dp, ds[i], ks[i])
  }

  lemma ShuffledDabits<F(!new)>(picks: nat -> nat, r: Ring<F>, d2: F, dp: Fp, ds: seq<DabitP<F>>, ks: seq<DabitV<F>>)
    requires Draws(picks) && GoodDabits(r, d2, dp, ds, ks)
    ensures GoodDabits(r, d2, dp, Shuffled(picks, ds, Last(|ds|)), Shuffled(picks, ks, Last(|ks|)))
  {
    hide GoodDabit, Shuffled;
    ShuffleAligned(picks, ds, ks, (d, k) => GoodDabit(r, d2, dp, d, k));
  }

  // ---- the opened cut ----

  /** What is opened of edaBits: bits and value. */
  function OpenedOf<F>(es: seq<EdabitP<F>>): (os: seq<(seq<F>, Fp)>)
    ensures |os| == |es|
  {
    seq(|es|, i requires 0 <= i < |es| => (Values(es[i].bits), es[i].value.x))
  }

  /** Opening edaBits and comparing the value with the bits: accepts exactly when all of them are consistent. */
  method RunOpenCut<F(!new, ==)>(p2: FComProver<F>, v2: FComVerifier<F>, pp: FComProver<Fp>, vp: FComVerifier<Fp>,
                                 hash2: seq<F> -> seq<F>, hashP: seq<Fp> -> seq<Fp>, k: nat, es: seq<EdabitP<F>>,
                                 fs: seq<EdabitV<F>>)
    returns (ok: bool, shown: seq<(seq<F>, Fp)>)
    requires Linked(p2, v2) && Linked(pp, vp) && pp.r == FP
    requires Hashes(hash2) && Hashes(hashP)
    requires AuthEdabits(p2.r, v2.delta, vp.delta, es, fs, k)
    ensures ok <==> forall i :: 0 <= i < |es| ==> TupleDiscrepancy(p2.r, es[i]) == 0
    ensures shown == OpenedOf(es)
  {
    hide Linked, Auth, IsBit, BitsValue, ToFp, FpAdd, FpNeg, AreBits, Hashes;
    ok, shown := true, [];
    for i := 0 to |es|
      invariant shown == OpenedOf(es[..i])
      invariant ok <==> forall j :: 0 <= j < i ==> TupleDiscrepancy(p2.r, es[j]) == 0
    {
      assert AuthEdabit(p2.r, v2.delta, vp.delta, es[i], fs[i]);
      var bits, okB := RunOpenValues(p2, v2, hash2, es[i].bits, fs[i].bits);
      var value, okV := RunOpenValues(pp, vp, hashP, [es[i].value], [fs[i].value]);
      assert value[0] == es[i].value.x;
      var x := ConvertBitsToField(p2.r, bits);
      FpIsRing();
      SubIsZero(FP, es[i].value.x, ToFp(BitsValue(p2.r, Values(es[i].bits))));
      ok := ok && okB && okV && x == value[0];
      shown := shown + [(bits, value[0])];
    }
    assert es[..|es|] == es;
  }

  // ---- the whole check ----

  ghost function Discrepancies<F>(r: Ring<F>, xs: seq<EdabitP<F>>): (ds: seq<Fp>)
    ensures |ds| == |xs|
  {
    seq(|xs|, i requires 0 <= i < |xs| => TupleDiscrepancy(r, xs[i]))
  }

  lemma GoodParts<F>(r: Ring<F>, d2: F, dp: Fp, k: nat, es: seq<EdabitP<F>>, fs: seq<EdabitV<F>>)
    requires GoodEdabits(r, d2, dp, k, es, fs)
    ensures AuthEdabits(r, d2, dp, es, fs, k) && LengthP(es, k)
    ensures forall i :: 0 <= i < |es| ==> TupleDiscrepancy(r, es[i]) == 0
  {
    hide AuthEdabit, AreBits, Values, TupleDiscrepancy;
  }

  lemma PartsGood<F>(r: Ring<F>, d2: F, dp: Fp, k: nat, es: seq<EdabitP<F>>, fs: seq<EdabitV<F>>)
    requires AuthEdabits(r, d2, dp, es, fs, k)
    requires forall i :: 0 <= i < |es| ==> TupleDiscrepancy(r, es[i]) == 0
    ensures GoodEdabits(r, d2, dp, k, es, fs)
  {
    hide AuthEdabit, AreBits, Values, TupleDiscrepancy;
  }

  lemma GoodDabitParts<F>(r: Ring<F>, d2: F, dp: Fp, ds: seq<DabitP<F>>, ks: seq<DabitV<F>>)
    ensures GoodDabits(r, d2, dp, ds, ks) <==> AuthDabits(r, d2, dp, ds, ks) && Consistent(r, ds)
  {
    hide Auth, IsBit, BitNat;
  }

  /** Consistent partners add nothing: only the tuples' own discrepancies are left. */
  lemma ConsistentPartners<F(!new)>(r: Ring<F>, xs: seq<EdabitP<F>>, ys: seq<EdabitP<F>>)
    requires |xs| == |ys| && forall i :: 0 <= i < |ys| ==> TupleDiscrepancy(r, ys[i]) == 0
    ensures PairDiscrepancies(r, xs, ys) == Discrepancies(r, xs)
  {
    hide TupleDiscrepancy, FpAdd;
    FpIsRing();
    forall i | 0 <= i < |xs| ensures PairDiscrepancies(r, xs, ys)[i] == Discrepancies(r, xs)[i] {
      AddZero(FP, TupleDiscrepancy(r, xs[i]));
    }
  }

  /** One consistent partner among the buckets is enough: if every pair of a tuple has discrepancies that sum
      to zero, the tuple is consistent as soon as one partner is. */
  lemma OnePartnerIsEnough<F(!new)>(r: Ring<F>, x: EdabitP<F>, partners: seq<EdabitP<F>>, j: nat)
    requires forall i :: 0 <= i < |partners| ==> FP.add(TupleDiscrepancy(r, x), TupleDiscrepancy(r, partners[i])) == 0
    requires j < |partners| && TupleDiscrepancy(r, partners[j]) == 0
    ensures x.value.x == ToFp(BitsValue(r, Values(x.bits)))
    ensures forall i :: 0 <= i < |partners| ==> TupleDiscrepancy(r, partners[i]) == 0
  {
    hide FpAdd, FpNeg, ToFp, BitsValue;
    FpIsRing();
    AddZero(FP, TupleDiscrepancy(r, x));
    SubIsZero(FP, x.value.x, ToFp(BitsValue(r, Values(x.bits))));
    forall i | 0 <= i < |partners| ensures TupleDiscrepancy(r, partners[i]) == 0 {
      AddZero(FP, TupleDiscrepancy(r, partners[i]));
    }
  }

  /** With honest partners the check accepts exactly when, in every bucket, delta times the random combination
      of the tuples' discrepancies vanishes. */
  ghost predicate BucketsAccept<F>(r: Ring<F>, delta: Fp, chis: seq<seq<Fp>>, xs: seq<EdabitP<F>>)
    requires forall j :: 0 <= j < |chis| ==> |chis[j]| == |xs|
  {
    forall j :: 0 <= j < |chis| ==> FP.mul(delta, Dot(FP, chis[j], Discrepancies(r, xs))) == 0
  }

  /** Consistent tuples are accepted for all challenges. */
  lemma ConsistentAccepted<F(!new)>(r: Ring<F>, delta: Fp, chis: seq<seq<Fp>>, xs: seq<EdabitP<F>>)
    requires forall j :: 0 <= j < |chis| ==> |chis[j]| == |xs|
    requires forall i :: 0 <= i < |xs| ==> xs[i].value.x == ToFp(BitsValue(r, Values(xs[i].bits)))
    ensures BucketsAccept(r, delta, chis, xs)
  {
    hide FpMul, FpAdd, FpNeg, ToFp, BitsValue, Dot;
    FpIsRing();
    forall i | 0 <= i < |xs| ensures Discrepancies(r, xs)[i] == 0 {
      SubIsZero(FP, xs[i].value.x, ToFp(BitsValue(r, Values(xs[i].bits))));
    }
    MulZero(FP, delta);
    forall j | 0 <= j < |chis| ensures FP.mul(delta, Dot(FP, chis[j], Discrepancies(r, xs))) == 0 {
      DotZero(FP, chis[j], Discrepancies(r, xs));
    }
  }

  function Part<T>(s: seq<T>, base: nat, n: nat): seq<T> {
    if base + n <= |s| then s[base..base + n] else []
  }

  /** Pass j takes the j-th partners and daBits. */
  ghost predicate BucketTraced<F>(s: Stock<F>, chi: F, chis: seq<seq<Fp>>, k: nat, xs: seq<EdabitP<F>>,
                                  ys: seq<EdabitP<F>>, ds: seq<DabitP<F>>, j: nat, t: PassTrace<F>)
  {
    var n := |xs|;
    && j < |chis|
    && PassTraced(s.After(Times(j, n + Times(k, n) + |s.basis2|), 0), chi, chis[j], k, xs, Part(ys, Times(j, n), n),
                  Part(ds, Times(j, n), n), t)
  }

  /** All bucket passes. The result is the verifier's verdict on a prover that goes on after its own zero check has
      failed; an honest prover stops there, with an error of its own. */
  method RunBuckets<F(!new, ==)>(p2: FComProver<F>, v2: FComVerifier<F>, pp: FComProver<Fp>, vp: FComVerifier<Fp>,
                                 hash: seq<F> -> seq<F>, chi: F, chis: seq<seq<Fp>>, k: nat,
                                 xs: seq<EdabitP<F>>, xks: seq<EdabitV<F>>, ys: seq<EdabitP<F>>, yks: seq<EdabitV<F>>,
                                 ds: seq<DabitP<F>>, ks: seq<DabitV<F>>)
    returns (okV: bool, passes: seq<PassTrace<F>>)
    requires Linked(p2, v2) && Linked(pp, vp) && pp.r == FP && IsBinary(p2.r) && Hashes(hash)
    requires forall j :: 0 <= j < |chis| ==> |chis[j]| == |xs|
    requires AuthEdabits(p2.r, v2.delta, vp.delta, xs, xks, k) && LengthP(xs, k)
    requires |ys| >= Times(|chis|, |xs|) && GoodEdabits(p2.r, v2.delta, vp.delta, k, ys, yks)
    requires |ds| >= Times(|chis|, |xs|) && GoodDabits(p2.r, v2.delta, vp.delta, ds, ks)
    requires {p2 as object, v2} !! {pp as object, vp}
    modifies p2, v2
    ensures Linked(p2, v2) && Linked(pp, vp)
    ensures okV <==> BucketsAccept(p2.r, vp.delta, chis, xs)
    ensures |passes| <= |chis| && (okV ==> |passes| == |chis|)
    ensures forall j :: 0 <= j < |passes| ==>
      BucketTraced(old(StockOf(p2, pp)), chi, chis, k, xs, ys, ds, j, passes[j])
    ensures okV ==> var n := Times(|chis|, |xs| + Times(k, |xs|) + |p2.basis|);
                    p2.used == old(p2.used) + n && v2.used == old(v2.used) + n
  {
    hide Auth, AuthEdabits, Linked, Dot, IsBinary, GoodEdabits, GoodDabits, FpMul, Discrepancies, BucketTraced, LengthP,
         Hashes, Times;
    passes := [];
    ghost var per, start := |xs| + Times(k, |xs|) + |p2.basis|, StockOf(p2, pp);
    NoTimes(per);
    for j := 0 to |chis|
      invariant Linked(p2, v2) && Linked(pp, vp)
      invariant forall i :: 0 <= i < j ==> FP.mul(vp.delta, Dot(FP, chis[i], Discrepancies(p2.r, xs))) == 0
      invariant p2.used == start.u2 + Times(j, per) && v2.used == old(v2.used) + Times(j, per)
      invariant |passes| == j && forall i :: 0 <= i < j ==>
        BucketTraced(start, chi, chis, k, xs, ys, ds, i, passes[i])
    {
      NextTimes(j, per);
      var ok, pass := RunBucket(p2, v2, pp, vp, hash, chi, chis, k, xs, xks, ys, yks, ds, ks, j, start);
      passes := passes + [pass];
      if !ok {
        return false, passes;
      }
    }
    okV := true;
  }

  /** Pass j, with the j-th partners and daBits. */
  method RunBucket<F(!new, ==)>(p2: FComProver<F>, v2: FComVerifier<F>, pp: FComProver<Fp>, vp: FComVerifier<Fp>,
                                hash: seq<F> -> seq<F>, chi: F, chis: seq<seq<Fp>>, k: nat,
                                xs: seq<EdabitP<F>>, xks: seq<EdabitV<F>>, ys: seq<EdabitP<F>>, yks: seq<EdabitV<F>>,
                                ds: seq<DabitP<F>>, ks: seq<DabitV<F>>, j: nat, ghost start: Stock<F>)
    returns (ok: bool, pass: PassTrace<F>)
    requires Linked(p2, v2) && Linked(pp, vp) && pp.r == FP && IsBinary(p2.r) && Hashes(hash)
    requires j < |chis| && |chis[j]| == |xs|
    requires AuthEdabits(p2.r, v2.delta, vp.delta, xs, xks, k) && LengthP(xs, k)
    requires |ys| >= Times(|chis|, |xs|) && GoodEdabits(p2.r, v2.delta, vp.delta, k, ys, yks)
    requires |ds| >= Times(|chis|, |xs|) && GoodDabits(p2.r, v2.delta, vp.delta, ds, ks)
    requires {p2 as object, v2} !! {pp as object, vp}
    requires StockOf(p2, pp) == start.After(Times(j, |xs| + Times(k, |xs|) + |p2.basis|), 0)
    modifies p2, v2
    ensures Linked(p2, v2) && Linked(pp, vp)
    ensures ok <==> FP.mul(vp.delta, Dot(FP, chis[j], Discrepancies(p2.r, xs))) == 0
    ensures BucketTraced(start, chi, chis, k, xs, ys, ds, j, pass)
    ensures var n := |xs| + Times(k, |xs|) + |p2.basis|;
            p2.used == old(p2.used) + n && v2.used == old(v2.used) + n
  {
    hide Auth, AuthEdabits, Linked, Dot, IsBinary, GoodEdabit, GoodDabit, TupleDiscrepancy, AuthDabits, Consistent,
         FpMul, Discrepancies, PassTraced, LengthP, Hashes, PairDiscrepancies;
    var n, base := |xs|, Times(j, |xs|);
    TimesMonotone(j + 1, |chis|, n);
    var ys', yks', ds', ks' := ys[base..base + n], yks[base..base + n], ds[base..base + n], ks[base..base + n];
    GoodParts(p2.r, v2.delta, vp.delta, k, ys', yks');
    GoodDabitParts(p2.r, v2.delta, vp.delta, ds', ks');
    ConsistentPartners(p2.r, xs, ys');
    var okP;
    okP, ok, pass := RunConvLoop(p2, v2, pp, vp, hash, chi, chis[j], k, xs, xks, ys', yks', ds', ks');
  }

  function EstimateVoles(n: nat, k: nat, numBucket: nat, numCut: nat, basis2: nat, basisP: nat): (nat, nat) {
    var edabits, dabits := Times(numBucket, n) + numCut, Times(numBucket, n);
    (Times(edabits, k) + dabits + FDABIT_SECURITY_PARAMETER + Times(numBucket, n + Times(k, n) + basis2),
     edabits + dabits + FdabitVoles(dabits, basisP))
  }

  /** What the prover sends: in the check of the daBits, for the opened cut, and in every pass. */
  datatype ConvTrace<F> = ConvTrace(fdabit: FdabitTrace<F>, shown: seq<(seq<F>, Fp)>, passes: seq<PassTrace<F>>)

  /** The next random values make edaBits and daBits; the daBits are checked; after the shuffles the last edaBits are
      opened, and the others and the daBits serve the passes in order. */
  ghost predicate ConvTraced<F(!new)>(s: Stock<F>, chi2: F, chiP: Fp, chis: seq<seq<Fp>>, picksE: nat -> nat,
                                      picksD: nat -> nat, cs: seq<seq<bool>>, es: seq<seq<bool>>, numCut: nat, k: nat,
                                      xs: seq<EdabitP<F>>, t: ConvTrace<F>)
  {
    var n := Times(|chis|, |xs|);
    var edabits := DrawnEdabits(s, k, n + numCut);
    var s' := s.After(Times(n + numCut, k), n + numCut);
    var dabits := DrawnDabits(s', n);
    && Draws(picksE) && Draws(picksD) && |dabits| == n && FdabitTraced(s'.After(n, n), chiP, dabits, cs, es, t.fdabit)
    && var ys, ds := Shuffled(picksE, edabits, Last(|edabits|)), Shuffled(picksD, dabits, Last(|dabits|));
       && t.shown == OpenedOf(Part(ys, n, numCut)) && |t.passes| <= |chis|
       && forall j :: 0 <= j < |t.passes| ==>
            BucketTraced(s'.After(n + FDABIT_SECURITY_PARAMETER, n + FdabitVoles(n, |s.basisP|)), chi2, chis, k, xs, ys,
                         ds, j, t.passes[j])
  }

  /** `conv` by both parties, for any authenticated tuples of k bits. The verifier accepts exactly when the daBit check
      admits the number of daBits and every bucket accepts, even for a prover that goes on after its own zero check has
      failed; so it always accepts consistent tuples, and then the number of random values consumed on each side is
      exactly the estimate. */
  method RunConv<F(!new, ==)>(p2: FComProver<F>, v2: FComVerifier<F>, pp: FComProver<Fp>, vp: FComVerifier<Fp>,
                              hash2: seq<F> -> seq<F>, hashP: seq<Fp> -> seq<Fp>, chi2: F, chiP: Fp, chis: seq<seq<Fp>>,
                              picksE: nat -> nat, picksD: nat -> nat, cs: seq<seq<bool>>, es: seq<seq<bool>>,
                              numCut: nat, k: nat, xs: seq<EdabitP<F>>, xks: seq<EdabitV<F>>)
    returns (ok: bool, trace: ConvTrace<F>)
    requires Linked(p2, v2) && Linked(pp, vp) && pp.r == FP && IsBinary(p2.r) && DrawsBits(p2)
    requires Hashes(hash2) && Hashes(hashP)
    requires Draws(picksE) && Draws(picksD) && Shapes(Times(|chis|, |xs|), cs, es)
    requires forall j :: 0 <= j < |chis| ==> |chis[j]| == |xs|
    requires AuthEdabits(p2.r, v2.delta, vp.delta, xs, xks, k) && LengthP(xs, k)
    requires {p2 as object, v2} !! {pp as object, vp}
    modifies p2, v2, pp, vp
    ensures Linked(p2, v2) && Linked(pp, vp)
    ensures xs == [] ==> ok
    ensures xs != [] ==> var n := Times(|chis|, |xs|);
                         (ok <==> CheckParameters(n, Gamma(n)) && BucketsAccept(p2.r, vp.delta, chis, xs))
    ensures var n := Times(|chis|, |xs|);
            xs != [] && CheckParameters(n, Gamma(n)) ==>
              && ConvTraced(old(StockOf(p2, pp)), chi2, chiP, chis, picksE, picksD, cs, es, numCut, k, xs, trace)
              && (ok ==> |trace.passes| == |chis|)
    ensures ok && xs != [] ==>
              var (n2, np) := EstimateVoles(|xs|, k, |chis|, numCut, |p2.basis|, |pp.basis|);
              && p2.used == old(p2.used) + n2 && v2.used == old(v2.used) + n2
              && pp.used == old(pp.used) + np && vp.used == old(vp.used) + np
  {
    hide Auth, AuthEdabits, Linked, Dot, IsBinary, GoodEdabit, GoodEdabits, GoodDabits, GoodDabit, TupleDiscrepancy,
         AuthDabits, Consistent, FpMul, Discrepancies, Gamma, CheckParameters, Shapes, Times, BucketsAccept, LengthP,
         DrawsBits, Draws, BitValued, Shuffled, Mismatches, DrawnEdabits, DrawnDabits, FdabitTraced, BucketTraced,
         OpenedOf, Hashes;
    trace := ConvTrace(FdabitTrace([], [], ProductProof(0, 0)), [], []);
    if xs == [] {
      return true, trace;
    }
    var numDabits := Times(|chis|, |xs|);
    var ys, yks := RunRandomEdabits(p2, v2, pp, vp, k, numDabits + numCut);
    PartsGood(p2.r, v2.delta, vp.delta, k, ys, yks);
    var ds, ks := RunRandomDabits(p2, v2, pp, vp, numDabits);
    GoodDabitParts(p2.r, v2.delta, vp.delta, ds, ks);
    var fdabit;
    ok, fdabit := RunFdabit(p2, v2, pp, vp, hash2, hashP, chiP, ds, ks, cs, es);
    if !ok {
      return;
    }
    var shown, passes;
    ok, shown, passes :=
      RunAfterDabits(p2, v2, pp, vp, hash2, hashP, chi2, chis, picksE, picksD, numCut, k, xs, xks, ys, yks, ds, ks);
    trace := ConvTrace(fdabit, shown, passes);
  }

  /** Shuffle, open the cut, run the buckets. */
  method RunAfterDabits<F(!new, ==)>(p2: FComProver<F>, v2: FComVerifier<F>, pp: FComProver<Fp>, vp: FComVerifier<Fp>,
                                     hash2: seq<F> -> seq<F>, hashP: seq<Fp> -> seq<Fp>, chi2: F, chis: seq<seq<Fp>>,
                                     picksE: nat -> nat, picksD: nat -> nat, numCut: nat, k: nat,
                                     xs: seq<EdabitP<F>>, xks: seq<EdabitV<F>>, ys: seq<EdabitP<F>>,
                                     yks: seq<EdabitV<F>>, ds: seq<DabitP<F>>, ks: seq<DabitV<F>>)
    returns (ok: bool, shown: seq<(seq<F>, Fp)>, passes: seq<PassTrace<F>>)
    requires Linked(p2, v2) && Linked(pp, vp) && pp.r == FP && IsBinary(p2.r)
    requires Hashes(hash2) && Hashes(hashP)
    requires Draws(picksE) && Draws(picksD) && forall j :: 0 <= j < |chis| ==> |chis[j]| == |xs|
    requires AuthEdabits(p2.r, v2.delta, vp.delta, xs, xks, k) && LengthP(xs, k)
    requires |ys| == Times(|chis|, |xs|) + numCut && GoodEdabits(p2.r, v2.delta, vp.delta, k, ys, yks)
    requires |ds| == Times(|chis|, |xs|) && GoodDabits(p2.r, v2.delta, vp.delta, ds, ks)
    requires {p2 as object, v2} !! {pp as object, vp}
    modifies p2, v2
    ensures Linked(p2, v2) && Linked(pp, vp)
    ensures ok <==> BucketsAccept(p2.r, vp.delta, chis, xs)
    ensures shown == OpenedOf(Part(Shuffled(picksE, ys, Last(|ys|)), Times(|chis|, |xs|), numCut))
    ensures |passes| <= |chis| && (ok ==> |passes| == |chis|)
    ensures forall j :: 0 <= j < |passes| ==>
      BucketTraced(old(StockOf(p2, pp)), chi2, chis, k, xs, Shuffled(picksE, ys, Last(|ys|)),
                   Shuffled(picksD, ds, Last(|ds|)), j, passes[j])
    ensures ok ==> var n := Times(|chis|, |xs| + Times(k, |xs|) + |p2.basis|);
                   p2.used == old(p2.used) + n && v2.used == old(v2.used) + n
  {
    hide Auth, AuthEdabits, Linked, Dot, IsBinary, GoodEdabit, GoodDabit, TupleDiscrepancy, FpMul, Discrepancies, Times,
         BucketsAccept, LengthP, Draws, Shuffled, GoodDabits, BucketTraced, OpenedOf, Hashes;
    ShuffledEdabits(picksE, p2.r, v2.delta, vp.delta, ys, yks, k);
    ShuffledDabits(picksD, p2.r, v2.delta, vp.delta, ds, ks);
    var ys' := ShuffleList(picksE, ys);
    var yks' := ShuffleList(picksE, yks);
    var ds' := ShuffleList(picksD, ds);
    var ks' := ShuffleList(picksD, ks);
    var base := Times(|chis|, |xs|);
    var cut, cutKeys := ys'[base..base + numCut], yks'[base..base + numCut];
    GoodParts(p2.r, v2.delta, vp.delta, k, cut, cutKeys);
    var okCut;
    okCut, shown := RunOpenCut(p2, v2, pp, vp, hash2, hashP, k, cut, cutKeys);
    if !okCut {
      return false, shown, [];
    }
    ok, passes := RunBuckets(p2, v2, pp, vp, hash2, chi2, chis, k, xs, xks, ys', yks', ds', ks');
  }
}
