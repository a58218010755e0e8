/** Combining two peers' private edaBits into shared ones: products of shared bits, the shared ripple-carry
    adder, conversion of the carry to the prime field and the overflow correction. */
module MpcCombine {
  import opened Arith
  import opened Rings
  import opened PrimeField
  import opened Bits
  import opened Homcom
  import opened Shares

  datatype SharedTriple<F> = SharedTriple(a: Share<F>, b: Share<F>, c: Share<F>)
  datatype SharedDabit<F> = SharedDabit(bit: Share<F>, value: Share<Fp>)
  datatype SharedEdabit<F> = SharedEdabit(bits: seq<Share<F>>, value: Share<Fp>)

  // ---- products ----

  ghost predicate GoodTriple<F>(r: Ring<F>, da: F, db: F, t: SharedTriple<F>, u: SharedTriple<F>) {
    && Shared(r, da, db, t.a, u.a) && Shared(r, da, db, t.b, u.b) && Shared(r, da, db, t.c, u.c)
    && IsBit(r, Clear(r, t.a, u.a)) && IsBit(r, Clear(r, t.b, u.b))
    && Clear(r, t.c, u.c) == r.mul(Clear(r, t.a, u.a), Clear(r, t.b, u.b))
  }

  ghost predicate GoodTriples<F>(r: Ring<F>, da: F, db: F, ts: seq<SharedTriple<F>>, us: seq<SharedTriple<F>>) {
    |ts| == |us| && forall i :: 0 <= i < |ts| ==> GoodTriple(r, da, db, ts[i], us[i])
  }

  ghost predicate SharedBits<F>(r: Ring<F>, da: F, db: F, sa: seq<Share<F>>, sb: seq<Share<F>>) {
    SharedAll(r, da, db, sa, sb) && AreBits(r, Clears(r, sa, sb))
  }

  function AddPairwise<F>(r: Ring<F>, xs: seq<Share<F>>, ys: seq<Share<F>>): (zs: seq<Share<F>>)
    requires |xs| == |ys|
    ensures |zs| == |xs|
  {
    seq(|xs|, i requires 0 <= i < |xs| => AddShares(r, xs[i], ys[i]))
  }

  /** Position by position, values masked by others. */
  function AddEach<F>(r: Ring<F>, xs: seq<F>, ys: seq<F>): (zs: seq<F>)
    ensures |zs| == |xs|
  {
    seq(|xs|, i requires 0 <= i < |xs| => if i < |ys| then r.add(xs[i], ys[i]) else xs[i])
  }

  function TriplesA<F>(ts: seq<SharedTriple<F>>): (s: seq<Share<F>>)
    ensures |s| == |ts|
  {
    seq(|ts|, i requires 0 <= i < |ts| => ts[i].a)
  }

  function TriplesB<F>(ts: seq<SharedTriple<F>>): (s: seq<Share<F>>)
    ensures |s| == |ts|
  {
    seq(|ts|, i requires 0 <= i < |ts| => ts[i].b)
  }

  /** A peer's half of the product, once both masked factors are open. */
  function Product<F(==)>(r: Ring<F>, first: bool, delta: F, t: SharedTriple<F>, d: F, e: F): Share<F> {
    var p0 := t.c;
    var p1 := if d == r.one then AddShares(r, p0, t.b) else p0;
    var p2 := if e == r.one then AddShares(r, p1, t.a) else p1;
    if r.mul(d, e) == r.one then AddConst(r, first, delta, p2, r.one) else p2
  }

  ghost function ProductValue<F>(r: Ring<F>, a: F, b: F, c: F, d: F, e: F): F {
    var p1 := if d == r.one then r.add(c, b) else c;
    var p2 := if e == r.one then r.add(p1, a) else p1;
    if r.mul(d, e) == r.one then r.add(r.one, p2) else p2
  }

  lemma ProductShared<F(!new)>(r: Ring<F>, da: F, db: F, t: SharedTriple<F>, u: SharedTriple<F>, d: F, e: F)
    requires IsRing(r) && Shared(r, da, db, t.a, u.a) && Shared(r, da, db, t.b, u.b) && Shared(r, da, db, t.c, u.c)
    ensures Shared(r, da, db, Product(r, true, da, t, d, e), Product(r, false, db, u, d, e))
    ensures Clear(r, Product(r, true, da, t, d, e), Product(r, false, db, u, d, e))
         == ProductValue(r, Clear(r, t.a, u.a), Clear(r, t.b, u.b), Clear(r, t.c, u.c), d, e)
  {
    hide Shared, Clear, AddShares, AddConst;
    var p1 := if d == r.one then AddShares(r, t.c, t.b) else t.c;
    var q1 := if d == r.one then AddShares(r, u.c, u.b) else u.c;
    AddShared(r, da, db, t.c, u.c, t.b, u.b);
    var p2 := if e == r.one then AddShares(r, p1, t.a) else p1;
    var q2 := if e == r.one then AddShares(r, q1, u.a) else q1;
    AddShared(r, da, db, p1, q1, t.a, u.a);
    AddConstShared(r, da, db, p2, q2, r.one);
  }

  /** With c = ab and the masked factors x + a and y + b, the product is xy. */
  lemma MaskedProduct<F(!new)>(r: Ring<F>, x: F, y: F, a: F, b: F)
    requires IsBinary(r) && IsBit(r, x) && IsBit(r, y) && IsBit(r, a) && IsBit(r, b)
    ensures ProductValue(r, a, b, r.mul(a, b), r.add(x, a), r.add(y, b)) == r.mul(x, y)
  {
    BinaryTables(r);
  }

  method RunMultiply<F(!new, ==)>(a: Peer<F>, b: Peer<F>, hash: seq<F> -> seq<F>,
                                  xa: seq<Share<F>>, xb: seq<Share<F>>, ya: seq<Share<F>>, yb: seq<Share<F>>,
                                  ta: seq<SharedTriple<F>>, tb: seq<SharedTriple<F>>)
    returns (pa: seq<Share<F>>, pb: seq<Share<F>>, d: seq<F>, e: seq<F>, ok: bool)
    requires Paired(a, b) && IsBinary(a.local.r) && Hashes(hash)
    requires |xa| == |ya| == |ta|
    requires SharedBits(a.local.r, a.remote.delta, b.remote.delta, xa, xb)
    requires SharedBits(a.local.r, a.remote.delta, b.remote.delta, ya, yb)
    requires GoodTriples(a.local.r, a.remote.delta, b.remote.delta, ta, tb)
    ensures ok && |pa| == |xa|
    ensures SharedBits(a.local.r, a.remote.delta, b.remote.delta, pa, pb)
    ensures forall i :: 0 <= i < |xa| ==>
              Clears(a.local.r, pa, pb)[i] == a.local.r.mul(Clears(a.local.r, xa, xb)[i], Clears(a.local.r, ya, yb)[i])
    ensures |tb| == |ta| && |xb| == |xa| && |yb| == |ya|
    ensures d == AddEach(a.local.r, Clears(a.local.r, xa, xb), Clears(a.local.r, TriplesA(ta), TriplesA(tb)))
    ensures e == AddEach(a.local.r, Clears(a.local.r, ya, yb), Clears(a.local.r, TriplesB(ta), TriplesB(tb)))
  {
    var r := a.local.r;
    ghost var da, db := a.remote.delta, b.remote.delta;
    AddPairwiseShared(r, da, db, xa, xb, TriplesA(ta), TriplesA(tb));
    AddPairwiseShared(r, da, db, ya, yb, TriplesB(ta), TriplesB(tb));
    var d', e', okD, okE;
    d, d', okD := RunOpen(a, b, hash, AddPairwise(r, xa, TriplesA(ta)), AddPairwise(r, xb, TriplesA(tb)));
    e, e', okE := RunOpen(a, b, hash, AddPairwise(r, ya, TriplesB(ta)), AddPairwise(r, yb, TriplesB(tb)));
    ok := okD && okE;
    pa := seq(|ta|, i requires 0 <= i < |ta| => Product(r, true, a.remote.delta, ta[i], d[i], e[i]));
    pb := seq(|tb|, i requires 0 <= i < |tb| => Product(r, false, b.remote.delta, tb[i], d'[i], e'[i]));
    forall i | 0 <= i < |ta|
      ensures Shared(r, da, db, pa[i], pb[i])
      ensures Clears(r, pa, pb)[i] == r.mul(Clears(r, xa, xb)[i], Clears(r, ya, yb)[i])
      ensures IsBit(r, Clears(r, pa, pb)[i])
    {
      var x, y := Clears(r, xa, xb)[i], Clears(r, ya, yb)[i];
      ProductShared(r, da, db, ta[i], tb[i], d[i], e[i]);
      assert GoodTriple(r, da, db, ta[i], tb[i]);
      MaskedProduct(r, x, y, Clear(r, ta[i].a, tb[i].a), Clear(r, ta[i].b, tb[i].b));
      AddBits(r, x, y);
    }
  }

  lemma AddPairwiseShared<F(!new)>(r: Ring<F>, da: F, db: F,
                                   xa: seq<Share<F>>, xb: seq<Share<F>>, ya: seq<Share<F>>, yb: seq<Share<F>>)
    requires IsRing(r) && |xa| == |ya| && SharedAll(r, da, db, xa, xb) && SharedAll(r, da, db, ya, yb)
    ensures SharedAll(r, da, db, AddPairwise(r, xa, ya), AddPairwise(r, xb, yb))
    ensures forall i :: 0 <= i < |xa| ==>
              Clears(r, AddPairwise(r, xa, ya), AddPairwise(r, xb, yb))[i] == r.add(Clears(r, xa, xb)[i],
                  Clears(r, ya, yb)[i])
  {
    forall i | 0 <= i < |xa|
      ensures Shared(r, da, db, AddPairwise(r, xa, ya)[i], AddPairwise(r, xb, yb)[i])
      ensures Clears(r, AddPairwise(r, xa, ya), AddPairwise(r, xb, yb))[i]
           == r.add(Clears(r, xa, xb)[i], Clears(r, ya, yb)[i])
    {
      AddShared(r, da, db, xa[i], xb[i], ya[i], yb[i]);
    }
  }

  // ---- the adder ----

  /** A batch of edaBits of the same length, as both peers hold it; the shared bits are bits, the value is arbitrary. */
  ghost predicate SharedBatch<F>(r: Ring<F>, da: F, db: F, ea: seq<SharedEdabit<F>>, eb: seq<SharedEdabit<F>>, k: nat) {
    && |ea| == |eb|
    && forall i :: 0 <= i < |ea| ==> |ea[i].bits| == k && SharedBits(r, da, db, ea[i].bits, eb[i].bits)
  }

  ghost predicate HasLength<F>(es: seq<SharedEdabit<F>>, k: nat) {
    forall i :: 0 <= i < |es| ==> |es[i].bits| == k
  }

  function Column<F>(es: seq<SharedEdabit<F>>, k: nat, i: nat): (s: seq<Share<F>>)
    requires HasLength(es, k) && i < k
    ensures |s| == |es|
  {
    seq(|es|, row requires 0 <= row < |es| => es[row].bits[i])
  }

  function ClearBits<F>(r: Ring<F>, a: SharedEdabit<F>, b: SharedEdabit<F>): (xs: seq<F>)
    requires |a.bits| == |b.bits|
    ensures |xs| == |a.bits|
  {
    Clears(r, a.bits, b.bits)
  }

  /** One peer's work for one bit position over the whole batch. */
  method AdderColumn<F>(r: Ring<F>, k: nat, bitIdx: nat, lhs: seq<SharedEdabit<F>>, rhs: seq<SharedEdabit<F>>,
                        carry: seq<Share<F>>, sums: seq<seq<Share<F>>>)
    returns (and1: seq<Share<F>>, and2: seq<Share<F>>, sums': seq<seq<Share<F>>>)
    requires HasLength(lhs, k) && HasLength(rhs, k) && bitIdx < k && |lhs| == |rhs| == |carry| == |sums|
    ensures and1 == AddPairwise(r, Column(lhs, k, bitIdx), carry)
    ensures and2 == AddPairwise(r, Column(rhs, k, bitIdx), carry)
    ensures |sums'| == |sums|
    ensures forall row :: 0 <= row < |sums| ==>
              sums'[row] == sums[row] + [AddPairwise(r, and1, Column(rhs, k, bitIdx))[row]]
  {
    and1, and2, sums' := [], [], sums;
    for row := 0 to |lhs|
      invariant |and1| == |and2| == row && |sums'| == |sums|
      invariant forall j :: 0 <= j < row ==> and1[j] == AddShares(r, lhs[j].bits[bitIdx], carry[j])
      invariant forall j :: 0 <= j < row ==> and2[j] == AddShares(r, rhs[j].bits[bitIdx], carry[j])
      invariant forall j :: 0 <= j < row ==> sums'[j] == sums[j] + [AddShares(r, and1[j], rhs[j].bits[bitIdx])]
      invariant forall j :: row <= j < |sums| ==> sums'[j] == sums[j]
    {
      var x := AddShares(r, lhs[row].bits[bitIdx], carry[row]);
      var y := AddShares(r, rhs[row].bits[bitIdx], carry[row]);
      var sum := AddShares(r, x, rhs[row].bits[bitIdx]);
      sums' := sums'[row := sums'[row] + [sum]];
      and1 := and1 + [x];
      and2 := and2 + [y];
    }
  }

  /** After i positions: the carries, and the sum bits of every row. */
  ghost predicate AdderState<F>(r: Ring<F>, da: F, db: F, k: nat, i: nat,
                                la: seq<SharedEdabit<F>>, lb: seq<SharedEdabit<F>>,
                                ra: seq<SharedEdabit<F>>, rb: seq<SharedEdabit<F>>,
                                ca: seq<Share<F>>, cb: seq<Share<F>>, sa: seq<seq<Share<F>>>, sb: seq<seq<Share<F>>>)
    requires |la| == |ra| && i <= k && SharedBatch(r, da, db, la, lb, k) && SharedBatch(r, da, db, ra, rb, k)
  {
    && |ca| == |sa| == |sb| == |la| && SharedAll(r, da, db, ca, cb)
    && forall row :: 0 <= row < |la| ==>
         && Clear(r, ca[row], cb[row]) == CarryAt(r, ClearBits(r, la[row], lb[row]), ClearBits(r, ra[row], rb[row]), i)
         && SharedAll(r, da, db, sa[row], sb[row])
         && Clears(r, sa[row], sb[row]) == SumBits(r, ClearBits(r, la[row], lb[row]), ClearBits(r, ra[row], rb[row]), i)
  }

  lemma ColumnShared<F(!new)>(r: Ring<F>, da: F, db: F, k: nat, i: nat, ea: seq<SharedEdabit<F>>,
                              eb: seq<SharedEdabit<F>>)
    requires SharedBatch(r, da, db, ea, eb, k) && i < k && HasLength(ea, k) && HasLength(eb, k)
    ensures SharedBits(r, da, db, Column(ea, k, i), Column(eb, k, i))
    ensures forall row :: 0 <= row < |ea| ==>
              Clears(r, Column(ea, k, i), Column(eb, k, i))[row] == ClearBits(r, ea[row], eb[row])[i]
  {
    forall row | 0 <= row < |ea|
      ensures Shared(r, da, db, Column(ea, k, i)[row], Column(eb, k, i)[row])
      ensures Clears(r, Column(ea, k, i), Column(eb, k, i))[row] == ClearBits(r, ea[row], eb[row])[i]
      ensures IsBit(r, ClearBits(r, ea[row], eb[row])[i])
    {
      assert SharedBits(r, da, db, ea[row].bits, eb[row].bits);
    }
  }

  lemma CarriesAreBits<F(!new)>(r: Ring<F>, da: F, db: F, k: nat, i: nat,
                                la: seq<SharedEdabit<F>>, lb: seq<SharedEdabit<F>>, ra: seq<SharedEdabit<F>>,
                                rb: seq<SharedEdabit<F>>, ca: seq<Share<F>>, cb: seq<Share<F>>, sa: seq<seq<Share<F>>>,
                                sb: seq<seq<Share<F>>>)
    requires IsBinary(r) && |la| == |ra| && i <= k && SharedBatch(r, da, db, la, lb, k)
    requires SharedBatch(r, da, db, ra, rb, k)
    requires AdderState(r, da, db, k, i, la, lb, ra, rb, ca, cb, sa, sb)
    ensures SharedBits(r, da, db, ca, cb)
  {
    forall row | 0 <= row < |ca| ensures IsBit(r, Clears(r, ca, cb)[row]) {
      var xs, ys := ClearBits(r, la[row], lb[row]), ClearBits(r, ra[row], rb[row]);
      assert SharedBits(r, da, db, la[row].bits, lb[row].bits) && SharedBits(r, da, db, ra[row].bits, rb[row].bits);
      AdderBits(r, xs, ys, i);
    }
  }

  lemma SumOfBits<F(!new)>(r: Ring<F>, da: F, db: F, xa: seq<Share<F>>, xb: seq<Share<F>>, ya: seq<Share<F>>,
                           yb: seq<Share<F>>)
    requires IsBinary(r) && |xa| == |ya| && SharedBits(r, da, db, xa, xb) && SharedBits(r, da, db, ya, yb)
    ensures SharedBits(r, da, db, AddPairwise(r, xa, ya), AddPairwise(r, xb, yb))
    ensures forall i :: 0 <= i < |xa| ==>
              Clears(r, AddPairwise(r, xa, ya), AddPairwise(r, xb, yb))[i] == r.add(Clears(r, xa, xb)[i],
                  Clears(r, ya, yb)[i])
  {
    AddPairwiseShared(r, da, db, xa, xb, ya, yb);
    forall i | 0 <= i < |xa| ensures IsBit(r, r.add(Clears(r, xa, xb)[i], Clears(r, ya, yb)[i])) {
      AddBits(r, Clears(r, xa, xb)[i], Clears(r, ya, yb)[i]);
    }
  }

  /** One bit position for one row. */
  lemma AdderRow<F(!new)>(r: Ring<F>, da: F, db: F, i: nat, xs: seq<F>, ys: seq<F>, c: F,
                          sa: seq<Share<F>>, sb: seq<Share<F>>, sa': seq<Share<F>>, sb': seq<Share<F>>, za: Share<F>,
                          zb: Share<F>)
    requires i < |xs| == |ys| && c == CarryAt(r, xs, ys, i)
    requires SharedAll(r, da, db, sa, sb) && Clears(r, sa, sb) == SumBits(r, xs, ys, i)
    requires Shared(r, da, db, za, zb) && Clear(r, za, zb) == r.add(r.add(xs[i], c), ys[i])
    requires sa' == sa + [za] && sb' == sb + [zb]
    ensures SharedAll(r, da, db, sa', sb') && Clears(r, sa', sb') == SumBits(r, xs, ys, i + 1)
    ensures CarryAt(r, xs, ys, i + 1) == r.add(c, r.mul(r.add(xs[i], c), r.add(ys[i], c)))
  {
    hide Shared, Clear;
    assert Clears(r, sa', sb') == Clears(r, sa, sb) + [Clear(r, za, zb)];
  }

  method RunAdderColumn<F(!new, ==)>(a: Peer<F>, b: Peer<F>, hash: seq<F> -> seq<F>, k: nat, i: nat,
                                     la: seq<SharedEdabit<F>>, lb: seq<SharedEdabit<F>>,
                                     ra: seq<SharedEdabit<F>>, rb: seq<SharedEdabit<F>>,
                                     ta: seq<SharedTriple<F>>, tb: seq<SharedTriple<F>>,
                                     ca: seq<Share<F>>, cb: seq<Share<F>>, sa: seq<seq<Share<F>>>,
                                     sb: seq<seq<Share<F>>>)
    returns (ca': seq<Share<F>>, cb': seq<Share<F>>, sa': seq<seq<Share<F>>>, sb': seq<seq<Share<F>>>, d: seq<F>,
             e: seq<F>, ok: bool)
    requires Paired(a, b) && IsBinary(a.local.r) && Hashes(hash)
    requires |la| == |ra| == |ta| && i < k
    requires SharedBatch(a.local.r, a.remote.delta, b.remote.delta, la, lb, k)
    requires SharedBatch(a.local.r, a.remote.delta, b.remote.delta, ra, rb, k)
    requires AdderState(a.local.r, a.remote.delta, b.remote.delta, k, i, la, lb, ra, rb, ca, cb, sa, sb)
    requires GoodTriples(a.local.r, a.remote.delta, b.remote.delta, ta, tb)
    ensures ok && AdderState(a.local.r, a.remote.delta, b.remote.delta, k, i + 1, la, lb, ra, rb, ca', cb', sa', sb')
    ensures |tb| == |ta| && ColumnMasked(a.local.r, k, i, ClearRows(a.local.r, la, lb), ClearRows(a.local.r, ra, rb),
                                         Clears(a.local.r, TriplesA(ta), TriplesA(tb)),
                                         Clears(a.local.r, TriplesB(ta), TriplesB(tb)), d, e)
  {
    hide CarryAt, SumBits, Shared, Clear, AddShares, IsBit;
    var r := a.local.r;
    ghost var da, db := a.remote.delta, b.remote.delta;
    assert HasLength(la, k) && HasLength(lb, k) && HasLength(ra, k) && HasLength(rb, k);
    ghost var colLa, colLb, colRa, colRb := Column(la, k, i), Column(lb, k, i), Column(ra, k, i), Column(rb, k, i);
    var and1a, and2a, and1b, and2b;
    and1a, and2a, sa' := AdderColumn(r, k, i, la, ra, ca, sa);
    and1b, and2b, sb' := AdderColumn(r, k, i, lb, rb, cb, sb);
    ColumnShared(r, da, db, k, i, la, lb);
    ColumnShared(r, da, db, k, i, ra, rb);
    CarriesAreBits(r, da, db, k, i, la, lb, ra, rb, ca, cb, sa, sb);
    SumOfBits(r, da, db, colLa, colLb, ca, cb);
    SumOfBits(r, da, db, colRa, colRb, ca, cb);
    SumOfBits(r, da, db, and1a, and1b, colRa, colRb);
    var pa, pb;
    pa, pb, d, e, ok := RunMultiply(a, b, hash, and1a, and1b, and2a, and2b, ta, tb);
    FactorsAre(r, da, db, k, i, la, lb, ra, rb, ca, cb, sa, sb);
    SumOfBits(r, da, db, ca, cb, pa, pb);
    ca', cb' := AddPairwise(r, ca, pa), AddPairwise(r, cb, pb);
    AdderColumnDone(r, da, db, k, i, la, lb, ra, rb, ca, cb, sa, sb, ca', cb', sa', sb',
                    AddPairwise(r, and1a, colRa), AddPairwise(r, and1b, colRb));
  }

  /** The clear bits of a batch, row by row. */
  function ClearRows<F>(r: Ring<F>, ea: seq<SharedEdabit<F>>, eb: seq<SharedEdabit<F>>): (xs: seq<seq<F>>)
    ensures |xs| == |ea|
  {
    seq(|ea|, i requires 0 <= i < |ea| =>
      if i < |eb| && |ea[i].bits| == |eb[i].bits| then ClearBits(r, ea[i], eb[i]) else [])
  }

  /** One factor of the products of column i: the bits zs plus the carries of xs and ys. */
  ghost function Factors<F>(r: Ring<F>, i: nat, zs: seq<seq<F>>, xs: seq<seq<F>>, ys: seq<seq<F>>): seq<F>
    requires |zs| == |xs| == |ys| && forall j :: 0 <= j < |xs| ==> i < |zs[j]| && i < |xs[j]| == |ys[j]|
  {
    seq(|xs|, j requires 0 <= j < |xs| => r.add(zs[j][i], CarryAt(r, xs[j], ys[j], i)))
  }

  /** What is opened for column i: both factors, masked by the factors of the triples. */
  ghost predicate ColumnMasked<F>(r: Ring<F>, k: nat, i: nat, xs: seq<seq<F>>, ys: seq<seq<F>>, a: seq<F>, b: seq<F>,
                                  d: seq<F>, e: seq<F>)
  {
    && i < k && |xs| == |ys| && (forall j :: 0 <= j < |xs| ==> |xs[j]| == |ys[j]| == k)
    && d == AddEach(r, Factors(r, i, xs, xs, ys), a) && e == AddEach(r, Factors(r, i, ys, xs, ys), b)
  }

  lemma FactorsAre<F(!new)>(r: Ring<F>, da: F, db: F, k: nat, i: nat,
                            la: seq<SharedEdabit<F>>, lb: seq<SharedEdabit<F>>, ra: seq<SharedEdabit<F>>,
                            rb: seq<SharedEdabit<F>>, ca: seq<Share<F>>, cb: seq<Share<F>>, sa: seq<seq<Share<F>>>,
                            sb: seq<seq<Share<F>>>)
    requires IsBinary(r) && |la| == |ra| && i < k && SharedBatch(r, da, db, la, lb, k)
    requires SharedBatch(r, da, db, ra, rb, k) && AdderState(r, da, db, k, i, la, lb, ra, rb, ca, cb, sa, sb)
    ensures HasLength(la, k) && HasLength(lb, k) && HasLength(ra, k) && HasLength(rb, k) && |cb| == |ca| == |la|
    ensures var xs, ys := ClearRows(r, la, lb), ClearRows(r, ra, rb);
            && (forall j :: 0 <= j < |xs| ==> |xs[j]| == |ys[j]| == k)
            && Clears(r, AddPairwise(r, Column(la, k, i), ca), AddPairwise(r, Column(lb, k, i), cb))
               == Factors(r, i, xs, xs, ys)
            && Clears(r, AddPairwise(r, Column(ra, k, i), ca), AddPairwise(r, Column(rb, k, i), cb))
               == Factors(r, i, ys, xs, ys)
  {
    hide CarryAt, SumBits, Shared, Clear, AddShares, IsBit, IsBinary;
    assert HasLength(la, k) && HasLength(lb, k) && HasLength(ra, k) && HasLength(rb, k) by {
      LengthsOf(r, da, db, la, lb, k);
      LengthsOf(r, da, db, ra, rb, k);
    }
    ColumnShared(r, da, db, k, i, la, lb);
    ColumnShared(r, da, db, k, i, ra, rb);
    CarriesAreBits(r, da, db, k, i, la, lb, ra, rb, ca, cb, sa, sb);
    SumOfBits(r, da, db, Column(la, k, i), Column(lb, k, i), ca, cb);
    SumOfBits(r, da, db, Column(ra, k, i), Column(rb, k, i), ca, cb);
  }

  lemma LengthsOf<F>(r: Ring<F>, da: F, db: F, ea: seq<SharedEdabit<F>>, eb: seq<SharedEdabit<F>>, k: nat)
    requires SharedBatch(r, da, db, ea, eb, k)
    ensures HasLength(ea, k) && HasLength(eb, k)
  {
    hide Shared, IsBit;
    forall i | 0 <= i < |ea| ensures |eb[i].bits| == k {
      assert SharedBits(r, da, db, ea[i].bits, eb[i].bits);
    }
  }

  lemma AdderColumnDone<F(!new)>(r: Ring<F>, da: F, db: F, k: nat, i: nat,
                                 la: seq<SharedEdabit<F>>, lb: seq<SharedEdabit<F>>, ra: seq<SharedEdabit<F>>,
                                 rb: seq<SharedEdabit<F>>, ca: seq<Share<F>>, cb: seq<Share<F>>, sa: seq<seq<Share<F>>>,
                                 sb: seq<seq<Share<F>>>, ca': seq<Share<F>>, cb': seq<Share<F>>,
                                 sa': seq<seq<Share<F>>>, sb': seq<seq<Share<F>>>, za: seq<Share<F>>, zb: seq<Share<F>>)
    requires |la| == |ra| && i < k && SharedBatch(r, da, db, la, lb, k) && SharedBatch(r, da, db, ra, rb, k)
    requires AdderState(r, da, db, k, i, la, lb, ra, rb, ca, cb, sa, sb)
    requires |za| == |sa'| == |sb'| == |ca'| == |la| && SharedAll(r, da, db, za, zb) && SharedAll(r, da, db, ca', cb')
    requires forall row :: 0 <= row < |la| ==> sa'[row] == sa[row] + [za[row]] && sb'[row] == sb[row] + [zb[row]]
    requires forall row :: 0 <= row < |la| ==>
               var c, x, y := Clears(r, ca, cb)[row], ClearBits(r, la[row], lb[row])[i],
               ClearBits(r, ra[row], rb[row])[i];
               && Clears(r, za, zb)[row] == r.add(r.add(x, c), y)
               && Clears(r, ca', cb')[row] == r.add(c, r.mul(r.add(x, c), r.add(y, c)))
    ensures AdderState(r, da, db, k, i + 1, la, lb, ra, rb, ca', cb', sa', sb')
  {
    hide CarryAt, SumBits, Shared, Clear, AreBits;
    forall row | 0 <= row < |la|
      ensures Clear(r, ca'[row], cb'[row])
           == CarryAt(r, ClearBits(r, la[row], lb[row]), ClearBits(r, ra[row], rb[row]), i + 1)
      ensures SharedAll(r, da, db, sa'[row], sb'[row])
      ensures Clears(r, sa'[row], sb'[row])
           == SumBits(r, ClearBits(r, la[row], lb[row]), ClearBits(r, ra[row], rb[row]), i + 1)
    {
      AdderRow(r, da, db, i, ClearBits(r, la[row], lb[row]), ClearBits(r, ra[row], rb[row]), Clears(r, ca, cb)[row],
               sa[row], sb[row], sa'[row], sb'[row], za[row], zb[row]);
    }
  }

  /** The whole adder: the carries start at zero, and each bit position uses the next slice of triples. */
  /** Column i, with its own triples. */
  ghost predicate ColumnAt<F>(r: Ring<F>, k: nat, i: nat, xs: seq<seq<F>>, ys: seq<seq<F>>, ta: seq<SharedTriple<F>>,
                              tb: seq<SharedTriple<F>>, d: seq<F>, e: seq<F>)
  {
    var base := Times(i, |xs|);
    && base + |xs| <= |ta| == |tb|
    && var u, v := ta[base..base + |xs|], tb[base..base + |xs|];
       ColumnMasked(r, k, i, xs, ys, Clears(r, TriplesA(u), TriplesA(v)), Clears(r, TriplesB(u), TriplesB(v)), d, e)
  }

  /** Column after column. */
  ghost predicate AdderMasked<F>(r: Ring<F>, k: nat, m: nat, xs: seq<seq<F>>, ys: seq<seq<F>>,
                                 ta: seq<SharedTriple<F>>, tb: seq<SharedTriple<F>>, ds: seq<seq<F>>, es: seq<seq<F>>)
  {
    |ds| == |es| == m && forall i :: 0 <= i < m ==> ColumnAt(r, k, i, xs, ys, ta, tb, ds[i], es[i])
  }

  lemma NoneMasked<F>(r: Ring<F>, k: nat, xs: seq<seq<F>>, ys: seq<seq<F>>, ta: seq<SharedTriple<F>>,
                      tb: seq<SharedTriple<F>>)
    ensures AdderMasked(r, k, 0, xs, ys, ta, tb, [], [])
  {
  }

  lemma NextMasked<F>(r: Ring<F>, k: nat, i: nat, xs: seq<seq<F>>, ys: seq<seq<F>>, ta: seq<SharedTriple<F>>,
                      tb: seq<SharedTriple<F>>, ds: seq<seq<F>>, es: seq<seq<F>>, d: seq<F>, e: seq<F>)
    requires AdderMasked(r, k, i, xs, ys, ta, tb, ds, es) && ColumnAt(r, k, i, xs, ys, ta, tb, d, e)
    ensures AdderMasked(r, k, i + 1, xs, ys, ta, tb, ds + [d], es + [e])
  {
    hide ColumnAt;
  }

  method RunAdder<F(!new, ==)>(a: Peer<F>, b: Peer<F>, hash: seq<F> -> seq<F>, k: nat,
                               la: seq<SharedEdabit<F>>, lb: seq<SharedEdabit<F>>,
                               ra: seq<SharedEdabit<F>>, rb: seq<SharedEdabit<F>>,
                               ta: seq<SharedTriple<F>>, tb: seq<SharedTriple<F>>)
    returns (sa: seq<seq<Share<F>>>, sb: seq<seq<Share<F>>>, ca: seq<Share<F>>, cb: seq<Share<F>>, ds: seq<seq<F>>,
             es: seq<seq<F>>, ok: bool)
    requires Paired(a, b) && IsBinary(a.local.r) && Hashes(hash)
    requires |la| == |ra| && |ta| == Times(k, |la|)
    requires SharedBatch(a.local.r, a.remote.delta, b.remote.delta, la, lb, k)
    requires SharedBatch(a.local.r, a.remote.delta, b.remote.delta, ra, rb, k)
    requires GoodTriples(a.local.r, a.remote.delta, b.remote.delta, ta, tb)
    ensures ok && AdderState(a.local.r, a.remote.delta, b.remote.delta, k, k, la, lb, ra, rb, ca, cb, sa, sb)
    ensures AdderMasked(a.local.r, k, k, ClearRows(a.local.r, la, lb), ClearRows(a.local.r, ra, rb), ta, tb, ds, es)
  {
    var r := a.local.r;
    ghost var da, db := a.remote.delta, b.remote.delta;
    var num := |la|;
    ca, cb := seq(num, i => ZeroShare(r)), seq(num, i => ZeroShare(r));
    sa, sb := seq(num, i => []), seq(num, i => []);
    ok, ds, es := true, [], [];
    AdderStarts(r, da, db, k, la, lb, ra, rb, ca, cb, sa, sb);
    var offset := 0;
    hide AdderState, SharedBatch, GoodTriples, Paired, IsBinary, IsRing, Hashes, ColumnAt, ClearRows, AdderMasked,
         Times;
    ghost var xs, ys := ClearRows(r, la, lb), ClearRows(r, ra, rb);
    NoneMasked(r, k, xs, ys, ta, tb);
    NoTimes(num);
    for i := 0 to k
      invariant AdderMasked(r, k, i, xs, ys, ta, tb, ds, es)
      invariant ok && offset == Times(i, num)
      invariant AdderState(r, da, db, k, i, la, lb, ra, rb, ca, cb, sa, sb)
    {
      NextTimes(i, num);
      var good, d, e;
      ca, cb, sa, sb, d, e, good :=
        RunAdderSlice(a, b, hash, k, i, offset, la, lb, ra, rb, ta, tb, ca, cb, sa, sb);
      offset := offset + num;
      NextMasked(r, k, i, xs, ys, ta, tb, ds, es, d, e);
      ok, ds, es := ok && good, ds + [d], es + [e];
    }
  }

  /** Column i, with the triples from the offset on. */
  method RunAdderSlice<F(!new, ==)>(a: Peer<F>, b: Peer<F>, hash: seq<F> -> seq<F>, k: nat, i: nat, offset: nat,
                                    la: seq<SharedEdabit<F>>, lb: seq<SharedEdabit<F>>,
                                    ra: seq<SharedEdabit<F>>, rb: seq<SharedEdabit<F>>,
                                    ta: seq<SharedTriple<F>>, tb: seq<SharedTriple<F>>,
                                    ca: seq<Share<F>>, cb: seq<Share<F>>, sa: seq<seq<Share<F>>>,
                                    sb: seq<seq<Share<F>>>)
    returns (ca': seq<Share<F>>, cb': seq<Share<F>>, sa': seq<seq<Share<F>>>, sb': seq<seq<Share<F>>>, d: seq<F>,
             e: seq<F>, ok: bool)
    requires Paired(a, b) && IsBinary(a.local.r) && Hashes(hash)
    requires |la| == |ra| && i < k && |ta| == Times(k, |la|) && offset == Times(i, |la|)
    requires SharedBatch(a.local.r, a.remote.delta, b.remote.delta, la, lb, k)
    requires SharedBatch(a.local.r, a.remote.delta, b.remote.delta, ra, rb, k)
    requires AdderState(a.local.r, a.remote.delta, b.remote.delta, k, i, la, lb, ra, rb, ca, cb, sa, sb)
    requires GoodTriples(a.local.r, a.remote.delta, b.remote.delta, ta, tb)
    ensures ok && AdderState(a.local.r, a.remote.delta, b.remote.delta, k, i + 1, la, lb, ra, rb, ca', cb', sa', sb')
    ensures ColumnAt(a.local.r, k, i, ClearRows(a.local.r, la, lb), ClearRows(a.local.r, ra, rb), ta, tb, d, e)
  {
    hide AdderState, SharedBatch, GoodTriples, Paired, IsBinary, IsRing, Hashes, ColumnMasked, ClearRows, Times,
         TriplesA, TriplesB, Clears;
    var num := |la|;
    TimesMonotone(i + 1, k, num);
    NextTimes(i, num);
    TriplesPart(a.local.r, a.remote.delta, b.remote.delta, ta, tb, offset, num);
    var tas, tbs := ta[offset..offset + num], tb[offset..offset + num];
    ca', cb', sa', sb', d, e, ok := RunAdderColumn(a, b, hash, k, i, la, lb, ra, rb, tas, tbs, ca, cb, sa, sb);
  }

  lemma TriplesPart<F(!new)>(r: Ring<F>, da: F, db: F, ta: seq<SharedTriple<F>>, tb: seq<SharedTriple<F>>, i: nat,
                             n: nat)
    requires GoodTriples(r, da, db, ta, tb) && i + n <= |ta|
    ensures |ta| == |tb| && GoodTriples(r, da, db, ta[i..i + n], tb[i..i + n])
  {
  }

  lemma AdderStarts<F(!new)>(r: Ring<F>, da: F, db: F, k: nat,
                             la: seq<SharedEdabit<F>>, lb: seq<SharedEdabit<F>>, ra: seq<SharedEdabit<F>>,
                             rb: seq<SharedEdabit<F>>, ca: seq<Share<F>>, cb: seq<Share<F>>, sa: seq<seq<Share<F>>>,
                             sb: seq<seq<Share<F>>>)
    requires IsRing(r) && |la| == |ra| && SharedBatch(r, da, db, la, lb, k) && SharedBatch(r, da, db, ra, rb, k)
    requires |ca| == |cb| == |sa| == |sb| == |la|
    requires forall row :: 0 <= row < |la| ==>
      ca[row] == ZeroShare(r) && cb[row] == ZeroShare(r) && sa[row] == [] && sb[row] == []
    ensures AdderState(r, da, db, k, 0, la, lb, ra, rb, ca, cb, sa, sb)
  {
    ZeroShared(r, da, db);
  }

  // ---- bits to the prime field ----

  ghost predicate GoodSharedDabit<F>(r: Ring<F>, da: F, db: F, ea: Fp, eb: Fp, u: SharedDabit<F>, v: SharedDabit<F>) {
    && Shared(r, da, db, u.bit, v.bit) && Shared(FP, ea, eb, u.value, v.value)
    && IsBit(r, Clear(r, u.bit, v.bit))
    && Clear(FP, u.value, v.value) == BitNat(r, Clear(r, u.bit, v.bit))
  }

  ghost predicate GoodSharedDabits<F>(r: Ring<F>, da: F, db: F, ea: Fp, eb: Fp, us: seq<SharedDabit<F>>,
                                      vs: seq<SharedDabit<F>>) {
    |us| == |vs| && forall i :: 0 <= i < |us| ==> GoodSharedDabit(r, da, db, ea, eb, us[i], vs[i])
  }

  function DabitBits<F>(ds: seq<SharedDabit<F>>): (s: seq<Share<F>>)
    ensures |s| == |ds|
  {
    seq(|ds|, i requires 0 <= i < |ds| => ds[i].bit)
  }

  /** A peer's half of the converted bit, once the masked bit is open. */
  function ConvertedShare<F(==)>(r: Ring<F>, first: bool, delta: Fp, value: Share<Fp>, mask: F): Share<Fp> {
    if mask == r.zero then value else AddConst(FP, first, delta, NegShare(FP, value), 1)
  }

  lemma Converted<F(!new)>(r: Ring<F>, da: F, db: F, ea: Fp, eb: Fp, u: SharedDabit<F>, v: SharedDabit<F>, x: F)
    requires IsBinary(r) && GoodSharedDabit(r, da, db, ea, eb, u, v) && IsBit(r, x)
    ensures var mask := r.add(x, Clear(r, u.bit, v.bit));
            var c, d := ConvertedShare(r, true, ea, u.value, mask), ConvertedShare(r, false, eb, v.value, mask);
            Shared(FP, ea, eb, c, d) && Clear(FP, c, d) == BitNat(r, x)
  {
    hide Shared, Clear, AddConst, NegShare, FpAdd, FpNeg, IsRing;
    FpIsRing();
    MaskIsZero(r, x, Clear(r, u.bit, v.bit));
    var n := NegShare(FP, u.value);
    NegShared(FP, ea, eb, u.value, v.value);
    AddConstShared(FP, ea, eb, n, NegShare(FP, v.value), 1);
    OneMinus();
  }

  method RunConvert<F(!new, ==)>(a: Peer<F>, b: Peer<F>, hash: seq<F> -> seq<F>, ea: Fp, eb: Fp,
                                 xa: seq<Share<F>>, xb: seq<Share<F>>, ua: seq<SharedDabit<F>>, ub: seq<SharedDabit<F>>)
    returns (va: seq<Share<Fp>>, vb: seq<Share<Fp>>, masks: seq<F>, ok: bool)
    requires Paired(a, b) && IsBinary(a.local.r) && Hashes(hash) && |xa| == |ua|
    requires SharedBits(a.local.r, a.remote.delta, b.remote.delta, xa, xb)
    requires GoodSharedDabits(a.local.r, a.remote.delta, b.remote.delta, ea, eb, ua, ub)
    ensures ok && |va| == |xa| && SharedAll(FP, ea, eb, va, vb)
    ensures forall i :: 0 <= i < |xa| ==> Clears(FP, va, vb)[i] == BitNat(a.local.r, Clears(a.local.r, xa, xb)[i])
    ensures |xb| == |xa| && |ub| == |ua|
    ensures masks == AddEach(a.local.r, Clears(a.local.r, xa, xb), Clears(a.local.r, DabitBits(ua), DabitBits(ub)))
  {
    var r := a.local.r;
    ghost var da, db := a.remote.delta, b.remote.delta;
    AddPairwiseShared(r, da, db, xa, xb, DabitBits(ua), DabitBits(ub));
    var ma, mb;
    ma, mb, ok := RunOpen(a, b, hash, AddPairwise(r, xa, DabitBits(ua)), AddPairwise(r, xb, DabitBits(ub)));
    va := seq(|ua|, i requires 0 <= i < |ua| => ConvertedShare(r, true, ea, ua[i].value, ma[i]));
    vb := seq(|ub|, i requires 0 <= i < |ub| => ConvertedShare(r, false, eb, ub[i].value, mb[i]));
    masks := ma;
    forall i | 0 <= i < |xa|
      ensures Shared(FP, ea, eb, va[i], vb[i]) && Clears(FP, va, vb)[i] == BitNat(r, Clears(r, xa, xb)[i])
    {
      Converted(r, da, db, ea, eb, ua[i], ub[i], Clears(r, xa, xb)[i]);
    }
  }

  // ---- the overflow correction ----

  function EdabitValues<F>(es: seq<SharedEdabit<F>>): (s: seq<Share<Fp>>)
    ensures |s| == |es|
  {
    seq(|es|, i requires 0 <= i < |es| => es[i].value)
  }

  function Corrected(scale: Fp, sums: seq<Share<Fp>>, carries: seq<Share<Fp>>): (vs: seq<Share<Fp>>)
    requires |sums| == |carries|
    ensures |vs| == |sums|
  {
    seq(|sums|, i requires 0 <= i < |sums| => AddShares(FP, sums[i], ScaleShare(FP, scale, carries[i])))
  }

  function AssembleEdabits<F>(bits: seq<seq<Share<F>>>, values: seq<Share<Fp>>): (es: seq<SharedEdabit<F>>)
    requires |bits| == |values|
    ensures |es| == |bits|
  {
    seq(|bits|, i requires 0 <= i < |bits| => SharedEdabit(bits[i], values[i]))
  }

  // ---- what a combination means ----

  ghost function EdabitDiscrepancy<F>(r: Ring<F>, a: SharedEdabit<F>, b: SharedEdabit<F>): Fp
    requires |a.bits| == |b.bits|
  {
    Discrepancy(r, ClearBits(r, a, b), Clear(FP, a.value, b.value))
  }

  /** The combination of two batches, edaBit by edaBit: authenticated in both directions, its bits are the
      binary form of (x + y) mod 2^k, and its discrepancy is the sum of the two discrepancies. */
  ghost predicate CombinedFrom<F>(r: Ring<F>, da: F, db: F, ea: Fp, eb: Fp, k: nat,
                                  la: SharedEdabit<F>, lb: SharedEdabit<F>, ra: SharedEdabit<F>, rb: SharedEdabit<F>,
                                  ga: SharedEdabit<F>, gb: SharedEdabit<F>)
  {
    && |ga.bits| == |gb.bits| == |la.bits| == |lb.bits| == |ra.bits| == |rb.bits| == k
    && SharedBits(r, da, db, ga.bits, gb.bits) && Shared(FP, ea, eb, ga.value, gb.value)
    && BitsValue(r, ClearBits(r, ga, gb))
       == (BitsValue(r, ClearBits(r, la, lb)) + BitsValue(r, ClearBits(r, ra, rb))) % Pow2(k)
    && EdabitDiscrepancy(r, ga, gb) == FP.add(EdabitDiscrepancy(r, la, lb), EdabitDiscrepancy(r, ra, rb))
  }

  lemma RowCombined<F(!new)>(r: Ring<F>, da: F, db: F, ea: Fp, eb: Fp, k: nat,
                             la: SharedEdabit<F>, lb: SharedEdabit<F>, ra: SharedEdabit<F>, rb: SharedEdabit<F>,
                             sa: seq<Share<F>>, sb: seq<Share<F>>, va: Share<Fp>, vb: Share<Fp>, ca: Share<Fp>,
                             cb: Share<Fp>, ga: SharedEdabit<F>, gb: SharedEdabit<F>)
    requires IsBinary(r) && |la.bits| == k && |ra.bits| == k
    requires SharedBits(r, da, db, la.bits, lb.bits) && SharedBits(r, da, db, ra.bits, rb.bits)
    requires SharedAll(r, da, db, sa, sb)
    requires Clears(r, sa, sb) == SumBits(r, ClearBits(r, la, lb), ClearBits(r, ra, rb), k)
    requires Shared(FP, ea, eb, va, vb)
    requires Clear(FP, va, vb) == FP.add(Clear(FP, la.value, lb.value), Clear(FP, ra.value, rb.value))
    requires Shared(FP, ea, eb, ca, cb)
    requires Clear(FP, ca, cb) == BitNat(r, CarryAt(r, ClearBits(r, la, lb), ClearBits(r, ra, rb), k))
    requires ga == SharedEdabit(sa, AddShares(FP, va, ScaleShare(FP, FpNeg(ToFp(Pow2(k))), ca)))
    requires gb == SharedEdabit(sb, AddShares(FP, vb, ScaleShare(FP, FpNeg(ToFp(Pow2(k))), cb)))
    ensures CombinedFrom(r, da, db, ea, eb, k, la, lb, ra, rb, ga, gb)
  {
    hide SumBits, CarryAt, BitsValue, Shared, Clear, AddShares, ScaleShare, Pow2;
    FpIsRing();
    var scale := FpNeg(ToFp(Pow2(k)));
    var xs, ys := ClearBits(r, la, lb), ClearBits(r, ra, rb);
    AdderBits(r, xs, ys, k);
    AdderModulo(r, xs, ys);
    ScaleShared(FP, ea, eb, scale, ca, cb);
    AddShared(FP, ea, eb, va, vb, ScaleShare(FP, scale, ca), ScaleShare(FP, scale, cb));
    DiscrepanciesAdd(r, xs, ys, Clear(FP, la.value, lb.value), Clear(FP, ra.value, rb.value));
  }

  /** Consistent edaBits combine to a consistent edaBit for (x + y) mod 2^k. */
  lemma CombinedConsistent<F(!new)>(r: Ring<F>, da: F, db: F, ea: Fp, eb: Fp, k: nat,
                                    la: SharedEdabit<F>, lb: SharedEdabit<F>, ra: SharedEdabit<F>, rb: SharedEdabit<F>,
                                    ga: SharedEdabit<F>, gb: SharedEdabit<F>, x: nat, y: nat)
    requires IsBinary(r) && CombinedFrom(r, da, db, ea, eb, k, la, lb, ra, rb, ga, gb)
    requires x < Pow2(k) && ClearBits(r, la, lb) == Binary(r, x, k) && Clear(FP, la.value, lb.value) == ToFp(x)
    requires y < Pow2(k) && ClearBits(r, ra, rb) == Binary(r, y, k) && Clear(FP, ra.value, rb.value) == ToFp(y)
    ensures ClearBits(r, ga, gb) == Binary(r, (x + y) % Pow2(k), k)
    ensures Clear(FP, ga.value, gb.value) == ToFp((x + y) % Pow2(k))
  {
    hide BitsValue, Shared, Clear, Binary, Pow2, IsBit, FpAdd, FpNeg, ToFp;
    var s := (x + y) % Pow2(k);
    BinaryValue(r, x, k);
    BinaryValue(r, y, k);
    BinaryValue(r, s, k);
    BitsValueInjective(r, ClearBits(r, ga, gb), Binary(r, s, k));
    FpIsRing();
    SubIsZero(FP, Clear(FP, la.value, lb.value), ToFp(x));
    SubIsZero(FP, Clear(FP, ra.value, rb.value), ToFp(y));
    AddZero(FP, 0);
    SubIsZero(FP, Clear(FP, ga.value, gb.value), ToFp(s));
  }
}
