/** The cut-and-choose of the original edaBit protocol: what a bucket check decides, and how the shuffled
    edaBits and triples are split into an opened cut and buckets. */
module MpcOriginalEdabits {
  import opened Arith
  import opened Rings
  import opened PrimeField
  import opened Bits
  import opened Homcom
  import opened QuickSilver
  import opened Fdabit
  import opened FdabitRun
  import opened EdabitConversionRun
  import opened Shares
  import opened MpcCombine
  import opened MpcEdabits
  import opened Shuffle

  // ---- opened edaBits and triples ----

  function AllBits<F>(es: seq<SharedEdabit<F>>): (rows: seq<seq<Share<F>>>)
    ensures |rows| == |es|
  {
    seq(|es|, i requires 0 <= i < |es| => es[i].bits)
  }

  lemma {:induction false} FlattenShared<F(!new)>(r: Ring<F>, da: F, db: F, xs: seq<seq<Share<F>>>,
                                                  ys: seq<seq<Share<F>>>)
    requires |xs| == |ys| && forall i :: 0 <= i < |xs| ==> SharedAll(r, da, db, xs[i], ys[i])
    ensures SharedAll(r, da, db, Flatten(xs), Flatten(ys))
  {
    hide Shared;
    if xs != [] {
      var n := |xs| - 1;
      FlattenShared(r, da, db, xs[..n], ys[..n]);
    }
  }

  lemma ChunkOfClears<F(!new)>(r: Ring<F>, da: F, db: F, xs: seq<seq<Share<F>>>, ys: seq<seq<Share<F>>>, k: nat, i: nat)
    requires |xs| == |ys| && i < |xs| && forall j :: 0 <= j < |xs| ==> |xs[j]| == |ys[j]| == k
    ensures |Flatten(xs)| == |Flatten(ys)| == Times(|xs|, k)
    ensures Chunk(Clears(r, Flatten(xs), Flatten(ys)), k, |xs|, i) == Clears(r, xs[i], ys[i])
  {
    hide Clear, Flatten;
    FlattenLength(xs, k);
    FlattenLength(ys, k);
    FlattenSlice(xs, k, i);
    FlattenSlice(ys, k, i);
  }

  ghost predicate AllConsistent<F>(r: Ring<F>, ea: seq<SharedEdabit<F>>, eb: seq<SharedEdabit<F>>)
    requires |ea| == |eb| && forall i :: 0 <= i < |ea| ==> |ea[i].bits| == |eb[i].bits|
  {
    forall i :: 0 <= i < |ea| ==> EdabitDiscrepancy(r, ea[i], eb[i]) == 0
  }

  ghost predicate SameLengths<F>(ea: seq<SharedEdabit<F>>, eb: seq<SharedEdabit<F>>, k: nat) {
    |ea| == |eb| && forall i :: 0 <= i < |ea| ==> |ea[i].bits| == |eb[i].bits| == k
  }

  /** What is opened of a batch: all bits in a row, and the values. */
  datatype Shown<F> = Shown(bits: seq<F>, values: seq<Fp>)

  function ShownOf<F>(r: Ring<F>, ea: seq<SharedEdabit<F>>, eb: seq<SharedEdabit<F>>): Shown<F> {
    if |ea| == |eb| && |Flatten(AllBits(ea))| == |Flatten(AllBits(eb))|
    then Shown(Clears(r, Flatten(AllBits(ea)), Flatten(AllBits(eb))), Clears(FP, EdabitValues(ea), EdabitValues(eb)))
    else Shown([], [])
  }

  lemma NoneShown<F(!new)>(r: Ring<F>)
    ensures ShownOf(r, [], []) == Shown([], [])
  {
  }

  /** `open_and_check_edabits` by both peers: accepts exactly when every edaBit is consistent. */
  method RunOpenAndCheck<F(!new, ==)>(a2: Peer<F>, b2: Peer<F>, ap: Peer<Fp>, bp: Peer<Fp>,
                                      hash2: seq<F> -> seq<F>, hashP: seq<Fp> -> seq<Fp>, k: nat,
                                      ea: seq<SharedEdabit<F>>, eb: seq<SharedEdabit<F>>)
    returns (ok: bool, shown: Shown<F>)
    requires Ready(a2, b2, ap, bp) && Hashes(hash2) && Hashes(hashP)
    requires SharedBatch(a2.local.r, a2.remote.delta, b2.remote.delta, ea, eb, k) && SameLengths(ea, eb, k)
    requires SharedValues(ap.remote.delta, bp.remote.delta, ea, eb)
    ensures ok <==> AllConsistent(a2.local.r, ea, eb)
    ensures shown == ShownOf(a2.local.r, ea, eb)
  {
    hide Linked, Shared, Clear, IsBit, AreBits, DrawsBits, IsBinary, Flatten, Chunk, Times, BitsValue, ToFp, FpAdd,
         FpNeg;
    var r := a2.local.r;
    if ea == [] {
      NoneShown(r);
      return true, Shown([], []);
    }
    var bitsA, bitsB := AllBits(ea), AllBits(eb);
    BatchBits(r, a2.remote.delta, b2.remote.delta, ea, eb, k);
    FlattenShared(r, a2.remote.delta, b2.remote.delta, bitsA, bitsB);
    var xs, ys, okB := RunOpen(a2, b2, hash2, Flatten(bitsA), Flatten(bitsB));
    var vs, ws, okV := RunOpen(ap, bp, hashP, EdabitValues(ea), EdabitValues(eb));
    shown := Shown(xs, vs);
    ChunkOfClears(r, a2.remote.delta, b2.remote.delta, bitsA, bitsB, k, 0);
    var sums := SumsOf(r, xs, k, |ea|);
    ok := okB && okV;
    for i := 0 to |ea|
      invariant ok <==> forall j :: 0 <= j < i ==> EdabitDiscrepancy(r, ea[j], eb[j]) == 0
    {
      ChunkOfClears(r, a2.remote.delta, b2.remote.delta, bitsA, bitsB, k, i);
      FpIsRing();
      SubIsZero(FP, vs[i], sums[i]);
      ok := ok && sums[i] == vs[i];
    }
  }

  lemma BatchBits<F>(r: Ring<F>, da: F, db: F, ea: seq<SharedEdabit<F>>, eb: seq<SharedEdabit<F>>, k: nat)
    requires SharedBatch(r, da, db, ea, eb, k)
    ensures forall i :: 0 <= i < |ea| ==> SharedAll(r, da, db, AllBits(ea)[i], AllBits(eb)[i])
  {
    hide SharedAll, AreBits;
    forall i | 0 <= i < |ea| ensures SharedAll(r, da, db, ea[i].bits, eb[i].bits) {
      assert SharedBits(r, da, db, ea[i].bits, eb[i].bits);
    }
  }

  // ---- pairs of a bucket ----

  function Lefts<F>(buckets: seq<seq<SharedEdabit<F>>>): (es: seq<SharedEdabit<F>>)
    requires forall b :: 0 <= b < |buckets| ==> buckets[b] != []
  {
    if buckets == [] then []
    else var n := |buckets| - 1; Lefts(buckets[..n]) + seq(|buckets[n]| - 1, i => buckets[n][0])
  }

  function Rights<F>(buckets: seq<seq<SharedEdabit<F>>>): (es: seq<SharedEdabit<F>>)
    requires forall b :: 0 <= b < |buckets| ==> buckets[b] != []
    ensures |es| == |Lefts(buckets)|
  {
    if buckets == [] then []
    else var n := |buckets| - 1; Rights(buckets[..n]) + buckets[n][1..]
  }

  /** Every bucket's first edaBit is paired with each of the others; the values are added on the way. */
  method MakePairs<F>(buckets: seq<seq<SharedEdabit<F>>>)
    returns (lhs: seq<SharedEdabit<F>>, rhs: seq<SharedEdabit<F>>, sums: seq<Share<Fp>>)
    requires forall b :: 0 <= b < |buckets| ==> buckets[b] != []
    ensures lhs == Lefts(buckets) && rhs == Rights(buckets)
    ensures sums == AddPairwise(FP, EdabitValues(lhs), EdabitValues(rhs))
  {
    lhs, rhs, sums := [], [], [];
    for b := 0 to |buckets|
      invariant lhs == Lefts(buckets[..b]) && rhs == Rights(buckets[..b])
      invariant sums == AddPairwise(FP, EdabitValues(lhs), EdabitValues(rhs))
    {
      var anchor := buckets[b][0];
      ghost var lhs0, rhs0 := lhs, rhs;
      for j := 1 to |buckets[b]|
        invariant lhs == lhs0 + seq(j - 1, i => anchor) && rhs == rhs0 + buckets[b][1..j]
        invariant sums == AddPairwise(FP, EdabitValues(lhs), EdabitValues(rhs))
      {
        var other := buckets[b][j];
        sums := sums + [AddShares(FP, anchor.value, other.value)];
        lhs, rhs := lhs + [anchor], rhs + [other];
      }
      assert buckets[..b + 1][..b] == buckets[..b];
    }
    assert buckets[..|buckets|] == buckets;
  }

  /** The discrepancies of the two members of every pair cancel. */
  ghost predicate PairsCancel<F>(r: Ring<F>, la: seq<SharedEdabit<F>>, lb: seq<SharedEdabit<F>>,
                                 ra: seq<SharedEdabit<F>>, rb: seq<SharedEdabit<F>>)
    requires |la| == |lb| == |ra| == |rb|
    requires forall i :: 0 <= i < |la| ==> |la[i].bits| == |lb[i].bits| && |ra[i].bits| == |rb[i].bits|
  {
    forall i :: 0 <= i < |la| ==> FP.add(EdabitDiscrepancy(r, la[i], lb[i]), EdabitDiscrepancy(r, ra[i], rb[i])) == 0
  }

  /** One bucket: anchor and partners. */
  ghost predicate BucketCancels<F>(r: Ring<F>, ba: seq<SharedEdabit<F>>, bb: seq<SharedEdabit<F>>, k: nat)
    requires SameLengths(ba, bb, k)
  {
    forall j :: 1 <= j < |ba| ==> FP.add(EdabitDiscrepancy(r, ba[0], bb[0]), EdabitDiscrepancy(r, ba[j], bb[j])) == 0
  }

  ghost predicate BucketLengths<F>(ba: seq<seq<SharedEdabit<F>>>, bb: seq<seq<SharedEdabit<F>>>, k: nat) {
    |ba| == |bb| && forall b :: 0 <= b < |ba| ==> ba[b] != [] && SameLengths(ba[b], bb[b], k)
  }

  ghost predicate Agree<S(!new), T(!new)>(p: (S, T) -> bool, xs: seq<S>, ys: seq<T>) {
    |xs| == |ys| && forall i :: 0 <= i < |xs| ==> p(xs[i], ys[i])
  }

  /** What holds for the two halves of every member of every bucket holds for the pairs. */
  lemma {:induction false} PairsAgree<F(!new)>(p: (SharedEdabit<F>, SharedEdabit<F>) -> bool,
                                               ba: seq<seq<SharedEdabit<F>>>, bb: seq<seq<SharedEdabit<F>>>)
    requires |ba| == |bb| && forall b :: 0 <= b < |ba| ==> ba[b] != [] && bb[b] != [] && Agree(p, ba[b], bb[b])
    ensures Agree(p, Lefts(ba), Lefts(bb)) && Agree(p, Rights(ba), Rights(bb))
  {
    if ba != [] {
      var n := |ba| - 1;
      PairsAgree(p, ba[..n], bb[..n]);
      assert Agree(p, ba[n], bb[n]);
      AgreeAppend(p, Lefts(ba[..n]), Lefts(bb[..n]), seq(|ba[n]| - 1, i => ba[n][0]), seq(|bb[n]| - 1, i => bb[n][0]));
      AgreeAppend(p, Rights(ba[..n]), Rights(bb[..n]), ba[n][1..], bb[n][1..]);
    }
  }

  lemma AgreeAppend<S(!new), T(!new)>(p: (S, T) -> bool, xs: seq<S>, ys: seq<T>, xs': seq<S>, ys': seq<T>)
    requires Agree(p, xs, ys) && Agree(p, xs', ys')
    ensures Agree(p, xs + xs', ys + ys')
  {
  }

  lemma PairLengths<F(!new)>(ba: seq<seq<SharedEdabit<F>>>, bb: seq<seq<SharedEdabit<F>>>, k: nat)
    requires BucketLengths(ba, bb, k)
    ensures SameLengths(Lefts(ba), Lefts(bb), k) && SameLengths(Rights(ba), Rights(bb), k)
  {
    hide Lefts, Rights;
    var p := (x: SharedEdabit<F>, y: SharedEdabit<F>) => |x.bits| == |y.bits| == k;
    forall b | 0 <= b < |ba| ensures ba[b] != [] && bb[b] != [] && Agree(p, ba[b], bb[b]) {
      assert SameLengths(ba[b], bb[b], k);
    }
    PairsAgree(p, ba, bb);
  }

  lemma {:induction false} PairsAreBuckets<F(!new)>(r: Ring<F>, ba: seq<seq<SharedEdabit<F>>>,
                                                    bb: seq<seq<SharedEdabit<F>>>, k: nat)
    requires BucketLengths(ba, bb, k)
    requires SameLengths(Lefts(ba), Lefts(bb), k) && SameLengths(Rights(ba), Rights(bb), k)
    ensures PairsCancel(r, Lefts(ba), Lefts(bb), Rights(ba), Rights(bb))
       <==> forall b :: 0 <= b < |ba| ==> BucketCancels(r, ba[b], bb[b], k)
  {
    hide EdabitDiscrepancy;
    if ba != [] {
      var n := |ba| - 1;
      PairLengths(ba[..n], bb[..n], k);
      PairsAreBuckets(r, ba[..n], bb[..n], k);
      assert SameLengths(ba[n], bb[n], k);
      var la, lb, ra, rb := Lefts(ba[..n]), Lefts(bb[..n]), Rights(ba[..n]), Rights(bb[..n]);
      LastBucket(r, la, lb, ra, rb, ba[n], bb[n], k, Lefts(ba), Lefts(bb), Rights(ba), Rights(bb));
    }
  }

  lemma LastBucket<F>(r: Ring<F>, la: seq<SharedEdabit<F>>, lb: seq<SharedEdabit<F>>, ra: seq<SharedEdabit<F>>,
                      rb: seq<SharedEdabit<F>>, ba: seq<SharedEdabit<F>>, bb: seq<SharedEdabit<F>>, k: nat,
                      la': seq<SharedEdabit<F>>, lb': seq<SharedEdabit<F>>, ra': seq<SharedEdabit<F>>,
                      rb': seq<SharedEdabit<F>>)
    requires ba != [] && SameLengths(ba, bb, k) && |la| == |ra|
    requires SameLengths(la, lb, k) && SameLengths(ra, rb, k) && SameLengths(la', lb', k) && SameLengths(ra', rb', k)
    requires la' == la + seq(|ba| - 1, i => ba[0]) && lb' == lb + seq(|bb| - 1, i => bb[0])
    requires ra' == ra + ba[1..] && rb' == rb + bb[1..]
    ensures PairsCancel(r, la', lb', ra', rb') <==> PairsCancel(r, la, lb, ra, rb) && BucketCancels(r, ba, bb, k)
  {
    hide EdabitDiscrepancy;
    var n := |la|;
    if PairsCancel(r, la', lb', ra', rb') {
      assert forall i :: 0 <= i < n ==> la'[i] == la[i] && lb'[i] == lb[i] && ra'[i] == ra[i] && rb'[i] == rb[i];
      forall j | 1 <= j < |ba|
        ensures FP.add(EdabitDiscrepancy(r, ba[0], bb[0]), EdabitDiscrepancy(r, ba[j], bb[j])) == 0
      {
        assert la'[n + j - 1] == ba[0] && lb'[n + j - 1] == bb[0] && ra'[n + j - 1] == ba[j] && rb'[n + j - 1] == bb[j];
      }
    }
    if PairsCancel(r, la, lb, ra, rb) && BucketCancels(r, ba, bb, k) {
      forall i | 0 <= i < |la'|
        ensures FP.add(EdabitDiscrepancy(r, la'[i], lb'[i]), EdabitDiscrepancy(r, ra'[i], rb'[i])) == 0
      {
        if i >= n {
          assert la'[i] == ba[0] && lb'[i] == bb[0] && ra'[i] == ba[i - n + 1] && rb'[i] == bb[i - n + 1];
        }
      }
    }
  }

  /** If the discrepancies cancel in every pair of a bucket, its first edaBit can only be inconsistent when every
      member is: one consistent member makes them all consistent. */
  lemma InconsistentTogether<F(!new)>(r: Ring<F>, ba: seq<SharedEdabit<F>>, bb: seq<SharedEdabit<F>>, k: nat, j: nat)
    requires SameLengths(ba, bb, k) && BucketCancels(r, ba, bb, k) && j < |ba|
    requires EdabitDiscrepancy(r, ba[j], bb[j]) == 0
    ensures forall i :: 0 <= i < |ba| ==> EdabitDiscrepancy(r, ba[i], bb[i]) == 0
  {
    hide EdabitDiscrepancy, FpAdd;
    FpIsRing();
    AddZero(FP, EdabitDiscrepancy(r, ba[0], bb[0]));
    forall i | 0 <= i < |ba| ensures EdabitDiscrepancy(r, ba[i], bb[i]) == 0 {
      AddZero(FP, EdabitDiscrepancy(r, ba[i], bb[i]));
    }
  }

  // ---- the bucket check ----

  /** The two halves of one edaBit, authenticated in both directions, with bits for bits. */
  ghost predicate GoodHalves<F>(r: Ring<F>, da: F, db: F, ea: Fp, eb: Fp, k: nat, x: SharedEdabit<F>,
                                y: SharedEdabit<F>) {
    |x.bits| == k && SharedBits(r, da, db, x.bits, y.bits) && Shared(FP, ea, eb, x.value, y.value)
  }

  lemma HalvesMean<F(!new)>(r: Ring<F>, da: F, db: F, ea: Fp, eb: Fp, k: nat, xs: seq<SharedEdabit<F>>,
                            ys: seq<SharedEdabit<F>>)
    requires Agree((x, y) => GoodHalves(r, da, db, ea, eb, k, x, y), xs, ys)
    ensures SharedBatch(r, da, db, xs, ys, k) && SharedValues(ea, eb, xs, ys) && SameLengths(xs, ys, k)
  {
    hide Shared, AreBits, SharedAll;
    forall i | 0 <= i < |xs|
      ensures |xs[i].bits| == |ys[i].bits| == k && SharedBits(r, da, db, xs[i].bits, ys[i].bits)
      ensures Shared(FP, ea, eb, xs[i].value, ys[i].value)
    {
      assert GoodHalves(r, da, db, ea, eb, k, xs[i], ys[i]);
      SwapLengths(r, da, db, xs[i].bits, ys[i].bits);
    }
  }

  ghost predicate GoodBuckets<F>(r: Ring<F>, da: F, db: F, ea: Fp, eb: Fp, k: nat,
                                 ba: seq<seq<SharedEdabit<F>>>, bb: seq<seq<SharedEdabit<F>>>) {
    && |ba| == |bb|
    && forall b :: 0 <= b < |ba| ==>
         && ba[b] != [] && |ba[b]| == |bb[b]|
         && forall j :: 0 <= j < |ba[b]| ==> GoodHalves(r, da, db, ea, eb, k, ba[b][j], bb[b][j])
  }

  lemma GoodPairs<F(!new)>(r: Ring<F>, da: F, db: F, ea: Fp, eb: Fp, k: nat,
                           ba: seq<seq<SharedEdabit<F>>>, bb: seq<seq<SharedEdabit<F>>>)
    requires GoodBuckets(r, da, db, ea, eb, k, ba, bb)
    ensures BucketLengths(ba, bb, k)
    ensures SharedBatch(r, da, db, Lefts(ba), Lefts(bb), k) && SharedValues(ea, eb, Lefts(ba), Lefts(bb))
    ensures SharedBatch(r, da, db, Rights(ba), Rights(bb), k) && SharedValues(ea, eb, Rights(ba), Rights(bb))
    ensures SameLengths(Lefts(ba), Lefts(bb), k) && SameLengths(Rights(ba), Rights(bb), k)
  {
    hide Lefts, Rights, GoodHalves;
    var p := (x: SharedEdabit<F>, y: SharedEdabit<F>) => GoodHalves(r, da, db, ea, eb, k, x, y);
    forall b | 0 <= b < |ba|
      ensures ba[b] != [] && bb[b] != [] && Agree(p, ba[b], bb[b]) && SameLengths(ba[b], bb[b], k)
    {
      HalvesMean(r, da, db, ea, eb, k, ba[b], bb[b]);
    }
    PairsAgree(p, ba, bb);
    HalvesMean(r, da, db, ea, eb, k, Lefts(ba), Lefts(bb));
    HalvesMean(r, da, db, ea, eb, k, Rights(ba), Rights(bb));
  }

  /** What is sent for all pairs: the check of the daBits, the masked factors and carries of the additions, and the
      opened sums. */
  datatype PairsTrace<F> = PairsTrace(fdabit: FdabitTrace<F>, ds: seq<seq<F>>, es: seq<seq<F>>, masks: seq<F>,
                                      shown: Shown<F>)

  ghost predicate PairsTraced<F>(s: Stock<F>, k: nat, la: seq<SharedEdabit<F>>, lb: seq<SharedEdabit<F>>,
                                 ra: seq<SharedEdabit<F>>, rb: seq<SharedEdabit<F>>, ta: seq<SharedTriple<F>>,
                                 tb: seq<SharedTriple<F>>, ins: DabitInputs<F>, t: PairsTrace<F>)
  {
    var xs, ys, dabits := ClearRows(s.r, la, lb), ClearRows(s.r, ra, rb), DrawnDabits(s, |la|);
    && |dabits| == |la| && FdabitTraced(s.After(|la|, |la|), ins.chi, dabits, ins.cs, ins.es, t.fdabit)
    && AdderMasked(s.r, k, k, xs, ys, ta, tb, t.ds, t.es)
    && CarriesMasked(s.r, k, xs, ys, DabitBitValues(dabits), t.masks)
    && SumsShown(s.r, k, la, lb, ra, rb, t.shown)
  }

  /** What is opened of the sums: bit by bit the binary form of (x + y) mod 2^k, and the values. */
  ghost predicate SumsShown<F>(r: Ring<F>, k: nat, la: seq<SharedEdabit<F>>, lb: seq<SharedEdabit<F>>,
                               ra: seq<SharedEdabit<F>>, rb: seq<SharedEdabit<F>>, shown: Shown<F>)
  {
    && |la| == |lb| == |ra| == |rb| == |shown.values| && |shown.bits| == Times(|la|, k)
    && forall i :: 0 <= i < |la| ==>
         && |la[i].bits| == |lb[i].bits| && |ra[i].bits| == |rb[i].bits|
         && (Chunk(shown.bits, k, |la|, i), shown.values[i])
            == Result(r, k, ClearBits(r, la[i], lb[i]), Clear(FP, la[i].value, lb[i].value),
                      ClearBits(r, ra[i], rb[i]), Clear(FP, ra[i].value, rb[i].value))
  }

  lemma SumsAreShown<F(!new)>(r: Ring<F>, da: F, db: F, ea: Fp, eb: Fp, k: nat,
                              la: seq<SharedEdabit<F>>, lb: seq<SharedEdabit<F>>, ra: seq<SharedEdabit<F>>,
                              rb: seq<SharedEdabit<F>>, ga: seq<SharedEdabit<F>>, gb: seq<SharedEdabit<F>>)
    requires IsBinary(r) && |la| == |lb| == |ra| == |rb| && AllCombined(r, da, db, ea, eb, k, la, lb, ra, rb, ga, gb)
    requires SameLengths(ga, gb, k)
    ensures SumsShown(r, k, la, lb, ra, rb, ShownOf(r, ga, gb))
  {
    hide Result, Shared, Clear, SharedBits, EdabitDiscrepancy, FpAdd, BitsValue, IsBinary;
    CombinedBatch(r, da, db, ea, eb, k, la, lb, ra, rb, ga, gb);
    FlattenLength(AllBits(ga), k);
    FlattenLength(AllBits(gb), k);
    hide AllCombined, Flatten;
    forall i | 0 <= i < |ga|
      ensures Chunk(ShownOf(r, ga, gb).bits, k, |ga|, i) == ClearBits(r, ga[i], gb[i])
      ensures ShownOf(r, ga, gb).values[i] == Clear(FP, ga[i].value, gb[i].value)
    {
      ShownRow(r, k, ga, gb, i);
    }
  }

  lemma ShownRow<F(!new)>(r: Ring<F>, k: nat, ga: seq<SharedEdabit<F>>, gb: seq<SharedEdabit<F>>, i: nat)
    requires SameLengths(ga, gb, k) && i < |ga|
    requires |Flatten(AllBits(ga))| == |Flatten(AllBits(gb))| == Times(|ga|, k)
    ensures Chunk(ShownOf(r, ga, gb).bits, k, |ga|, i) == ClearBits(r, ga[i], gb[i])
    ensures ShownOf(r, ga, gb).values[i] == Clear(FP, ga[i].value, gb[i].value)
  {
    hide Clear, Flatten;
    FlattenSlice(AllBits(ga), k, i);
    FlattenSlice(AllBits(gb), k, i);
  }

  lemma TracedPairs<F(!new)>(s: Stock<F>, k: nat, la: seq<SharedEdabit<F>>, lb: seq<SharedEdabit<F>>,
                             ra: seq<SharedEdabit<F>>, rb: seq<SharedEdabit<F>>, ta: seq<SharedTriple<F>>,
                             tb: seq<SharedTriple<F>>, ins: DabitInputs<F>, da: F, db: F, ea: Fp, eb: Fp,
                             ga: seq<SharedEdabit<F>>, gb: seq<SharedEdabit<F>>, ua: seq<SharedDabit<F>>,
                             ub: seq<SharedDabit<F>>, t: PairsTrace<F>)
    requires IsBinary(s.r) && |la| == |lb| == |ra| == |rb|
    requires AllCombined(s.r, da, db, ea, eb, k, la, lb, ra, rb, ga, gb) && SameLengths(ga, gb, k)
    requires |DrawnDabits(s, |la|)| == |la| && t.shown == ShownOf(s.r, ga, gb)
    requires FdabitTraced(s.After(|la|, |la|), ins.chi, DrawnDabits(s, |la|), ins.cs, ins.es, t.fdabit)
    requires AdderMasked(s.r, k, k, ClearRows(s.r, la, lb), ClearRows(s.r, ra, rb), ta, tb, t.ds, t.es)
    requires DabitsShared(s.r, DrawnDabits(s, |la|), ins, ua, ub)
    requires CarriesMasked(s.r, k, ClearRows(s.r, la, lb), ClearRows(s.r, ra, rb),
                           Clears(s.r, DabitBits(ua), DabitBits(ub)), t.masks)
    ensures PairsTraced(s, k, la, lb, ra, rb, ta, tb, ins, t)
  {
    hide SumsShown, ShownOf, AllCombined, AdderMasked, CarriesMasked, FdabitTraced, DrawnDabits, ClearRows, IsBinary;
    SumsAreShown(s.r, da, db, ea, eb, k, la, lb, ra, rb, ga, gb);
  }

  /** `open_and_check_bucket_pairs` by both peers, with correct triples and the daBits it generates: it accepts
      exactly when, in every bucket, the discrepancy of the first edaBit and that of each other one sum to zero. */
  method RunBucketPairs<F(!new, ==)>(a2: Peer<F>, b2: Peer<F>, ap: Peer<Fp>, bp: Peer<Fp>,
                                     hash2: seq<F> -> seq<F>, hashP: seq<Fp> -> seq<Fp>, k: nat,
                                     ba: seq<seq<SharedEdabit<F>>>, bb: seq<seq<SharedEdabit<F>>>,
                                     ta: seq<seq<SharedTriple<F>>>, tb: seq<seq<SharedTriple<F>>>, ins: DabitInputs<F>)
    returns (ok: bool, trace: PairsTrace<F>)
    requires Ready(a2, b2, ap, bp) && Hashes(hash2) && Hashes(hashP)
    requires GoodBuckets(a2.local.r, a2.remote.delta, b2.remote.delta, ap.remote.delta, bp.remote.delta, k, ba, bb)
    requires BucketLengths(ba, bb, k)
    requires |Flatten(ta)| == Times(k, |Lefts(ba)|)
    requires GoodTriples(a2.local.r, a2.remote.delta, b2.remote.delta, Flatten(ta), Flatten(tb))
    requires DabitShapes(|Lefts(ba)|, ins)
    modifies a2.local, a2.remote, b2.local, b2.remote, ap.local, ap.remote, bp.local, bp.remote
    ensures Ready(a2, b2, ap, bp)
    ensures var n := |Lefts(ba)|;
            ok <==> (n == 0 || CheckParameters(n, Gamma(n))) && forall b :: 0 <= b < |ba| ==>
                BucketCancels(a2.local.r, ba[b], bb[b], k)
    ensures var n := |Lefts(ba)|;
            CheckParameters(n, Gamma(n)) && n > 0 ==>
              PairsTraced(old(StockOf(a2.local, ap.local)), k, Lefts(ba), Lefts(bb), Rights(ba), Rights(bb),
                          Flatten(ta), Flatten(tb), ins, trace)
    ensures ok ==>
              var (m2, mp) := DabitVoles(|Lefts(ba)|, |ap.local.basis|);
              && StockOf(a2.local, ap.local) == old(StockOf(a2.local, ap.local)).After(m2, mp)
              && StockOf(b2.local, bp.local) == old(StockOf(b2.local, bp.local)).After(|Lefts(ba)|, |Lefts(ba)|)
  {
    hide Linked, Shared, Clear, IsBit, AreBits, DrawsBits, IsBinary, Flatten, Times, Lefts, Rights, CheckParameters,
         Gamma, Shapes, GoodTriple, GoodSharedDabit, EdabitDiscrepancy, BucketCancels, SharedBits, CombinedFrom,
         AddShares, BitsValue, Pow2, FpAdd, GoodBuckets, Hashes, AddPairwise, SumsHold, PairsCancel, PairsTraced,
         DrawnDabits, FdabitTraced, DabitsShared, AdderMasked, CarriesMasked, ClearRows, ShownOf, AllCombined;
    trace := PairsTrace(FdabitTrace([], [], ProductProof(0, 0)), [], [], [], Shown([], []));
    ghost var s := StockOf(a2.local, ap.local);
    var r := a2.local.r;
    ghost var da, db, ea, eb := a2.remote.delta, b2.remote.delta, ap.remote.delta, bp.remote.delta;
    var la, ra, va := MakePairs(ba);
    var lb, rb, vb := MakePairs(bb);
    GoodPairs(r, da, db, ea, eb, k, ba, bb);
    PairsAreBuckets(r, ba, bb, k);
    SamePeerSums(ea, eb, la, lb, ra, rb);
    if ba == [] {
      NoPairs<F>();
      return true, trace;
    }
    var ua, ub, fdabit, okD := RunSharedDabits(a2, b2, ap, bp, hash2, hashP, |la|, ins);
    if !okD {
      return false, trace;
    }
    var ga, gb, ds, es, masks, okC :=
      RunCombineWith(a2, b2, hash2, ap, bp, k, la, lb, ra, rb, va, vb, Flatten(ta), Flatten(tb), ua, ub);
    CombinedBatch(r, da, db, ea, eb, k, la, lb, ra, rb, ga, gb);
    CombinedLengths(r, da, db, ea, eb, k, la, lb, ra, rb, ga, gb);
    var shown;
    ok, shown := RunOpenAndCheck(a2, b2, ap, bp, hash2, hashP, k, ga, gb);
    trace := PairsTrace(fdabit, ds, es, masks, shown);
    if la != [] {
      TracedPairs(s, k, la, lb, ra, rb, Flatten(ta), Flatten(tb), ins, da, db, ea, eb, ga, gb, ua, ub, trace);
    }
  }

  lemma NoPairs<F>()
    ensures Lefts<F>([]) == []
  {
  }

  lemma SamePeerSums<F(!new)>(ea: Fp, eb: Fp, la: seq<SharedEdabit<F>>, lb: seq<SharedEdabit<F>>,
                              ra: seq<SharedEdabit<F>>, rb: seq<SharedEdabit<F>>)
    requires |la| == |ra| && SharedValues(ea, eb, la, lb) && SharedValues(ea, eb, ra, rb)
    ensures SumsHold(ea, eb, la, lb, ra, rb, AddPairwise(FP, EdabitValues(la), EdabitValues(ra)),
                     AddPairwise(FP, EdabitValues(lb), EdabitValues(rb)))
  {
    hide FpAdd, Shared, Clear, AddShares;
    FpIsRing();
    forall i | 0 <= i < |la|
      ensures Shared(FP, ea, eb, AddShares(FP, la[i].value, ra[i].value), AddShares(FP, lb[i].value, rb[i].value))
      ensures Clear(FP, AddShares(FP, la[i].value, ra[i].value), AddShares(FP, lb[i].value, rb[i].value))
           == FP.add(Clear(FP, la[i].value, lb[i].value), Clear(FP, ra[i].value, rb[i].value))
    {
      AddShared(FP, ea, eb, la[i].value, lb[i].value, ra[i].value, rb[i].value);
    }
  }

  lemma CombinedLengths<F(!new)>(r: Ring<F>, da: F, db: F, ea: Fp, eb: Fp, k: nat,
                                 la: seq<SharedEdabit<F>>, lb: seq<SharedEdabit<F>>, ra: seq<SharedEdabit<F>>,
                                 rb: seq<SharedEdabit<F>>, ga: seq<SharedEdabit<F>>, gb: seq<SharedEdabit<F>>)
    requires |la| == |lb| == |ra| == |rb| && AllCombined(r, da, db, ea, eb, k, la, lb, ra, rb, ga, gb)
    requires forall i :: 0 <= i < |la| ==> |la[i].bits| == |lb[i].bits| && |ra[i].bits| == |rb[i].bits|
    ensures SameLengths(ga, gb, k)
    ensures AllConsistent(r, ga, gb) <==> PairsCancel(r, la, lb, ra, rb)
  {
    hide EdabitDiscrepancy, BitsValue, SharedBits, Shared, FpAdd;
    forall i | 0 <= i < |la|
      ensures |ga[i].bits| == |gb[i].bits| == k
      ensures EdabitDiscrepancy(r, ga[i], gb[i])
           == FP.add(EdabitDiscrepancy(r, la[i], lb[i]), EdabitDiscrepancy(r, ra[i], rb[i]))
    {
      assert CombinedFrom(r, da, db, ea, eb, k, la[i], lb[i], ra[i], rb[i], ga[i], gb[i]);
    }
  }

  // ---- cut and choose ----

  /** `chunks(size)` of a list whose length is a multiple of size. */
  method Split<T>(list: seq<T>, size: nat, ghost n: nat) returns (buckets: seq<seq<T>>)
    requires size > 0 && |list| == Times(n, size)
    ensures |buckets| == n && Flatten(buckets) == list && forall b :: 0 <= b < n ==> |buckets[b]| == size
  {
    buckets := [];
    var offset := 0;
    ghost var m := 0;
    while offset < |list|
      invariant m <= n && |buckets| == m && offset == Times(m, size) <= |list|
      invariant Flatten(buckets) == list[..offset] && forall b :: 0 <= b < m ==> |buckets[b]| == size
      decreases |list| - offset
    {
      if m + 1 > n {
        TimesMonotone(n, m, size);
      }
      TimesMonotone(m + 1, n, size);
      buckets := buckets + [list[offset..offset + size]];
      offset := offset + size;
      m := m + 1;
    }
    if m < n {
      TimesMonotone(m + 1, n, size);
    }
  }

  /** `open_and_check_triples` by both peers. */
  method RunOpenTriples<F(!new, ==)>(a: Peer<F>, b: Peer<F>, hash: seq<F> -> seq<F>, ta: seq<SharedTriple<F>>,
                                     tb: seq<SharedTriple<F>>)
    returns (ok: bool, xs: seq<F>, ys: seq<F>, zs: seq<F>)
    requires Paired(a, b) && Hashes(hash) && |ta| == |tb|
    requires SharedAll(a.local.r, a.remote.delta, b.remote.delta, TriplesA(ta), TriplesA(tb))
    requires SharedAll(a.local.r, a.remote.delta, b.remote.delta, TriplesB(ta), TriplesB(tb))
    requires SharedAll(a.local.r, a.remote.delta, b.remote.delta, TriplesC(ta), TriplesC(tb))
    ensures ok <==> forall i :: 0 <= i < |ta| ==>
                      Clear(a.local.r, ta[i].c, tb[i].c) == a.local.r.mul(Clear(a.local.r, ta[i].a, tb[i].a),
                          Clear(a.local.r, ta[i].b, tb[i].b))
    ensures xs == Clears(a.local.r, TriplesA(ta), TriplesA(tb)) && ys == Clears(a.local.r, TriplesB(ta), TriplesB(tb))
    ensures zs == Clears(a.local.r, TriplesC(ta), TriplesC(tb))
  {
    hide Linked, Shared, Clear;
    if ta == [] {
      return true, [], [], [];
    }
    var r := a.local.r;
    var xs', ys', zs', okX, okY, okZ;
    xs, xs', okX := RunOpen(a, b, hash, TriplesA(ta), TriplesA(tb));
    ys, ys', okY := RunOpen(a, b, hash, TriplesB(ta), TriplesB(tb));
    zs, zs', okZ := RunOpen(a, b, hash, TriplesC(ta), TriplesC(tb));
    ok := okX && okY && okZ;
    for i := 0 to |ta|
      invariant ok <==> forall j :: 0 <= j < i ==>
        Clear(r, ta[j].c, tb[j].c) == r.mul(Clear(r, ta[j].a, tb[j].a), Clear(r, ta[j].b, tb[j].b))
    {
      ok := ok && r.mul(xs[i], ys[i]) == zs[i];
    }
  }

  datatype PrivateEdabit<F> = PrivateEdabit(clearBits: seq<F>, clearValue: Fp, shared: SharedEdabit<F>)

  function SharedParts<F>(ps: seq<PrivateEdabit<F>>): (es: seq<SharedEdabit<F>>)
    ensures |es| == |ps|
  {
    Map((p: PrivateEdabit<F>) => p.shared, ps)
  }

  /** The owner shuffles its private list and its list of shares separately, from the same seed: they stay aligned. */
  method OwnerShuffle<F>(picks: nat -> nat, private: seq<PrivateEdabit<F>>)
    returns (ps: seq<PrivateEdabit<F>>, es: seq<SharedEdabit<F>>)
    requires Draws(picks)
    ensures ps == Shuffled(picks, private, Last(|private|))
    ensures es == SharedParts(ps) == Shuffled(picks, SharedParts(private), Last(|private|))
  {
    ps := ShuffleList(picks, private);
    es := ShuffleList(picks, SharedParts(private));
    ShuffleCommutes(picks, (p: PrivateEdabit<F>) => p.shared, private, Last(|private|));
  }

  function Firsts<T>(buckets: seq<seq<T>>): (xs: seq<T>)
    requires forall b :: 0 <= b < |buckets| ==> buckets[b] != []
    ensures |xs| == |buckets|
  {
    seq(|buckets|, b requires 0 <= b < |buckets| => buckets[b][0])
  }

  /** Bucketing the private list and the shares gives the same outputs. */
  lemma FirstsAligned<F>(ps: seq<seq<PrivateEdabit<F>>>, es: seq<seq<SharedEdabit<F>>>, size: nat)
    requires size > 0 && |ps| == |es| && Flatten(es) == SharedParts(Flatten(ps))
    requires forall b :: 0 <= b < |ps| ==> |ps[b]| == |es[b]| == size
    ensures Firsts(es) == SharedParts(Firsts(ps))
  {
    hide Flatten;
    forall b | 0 <= b < |ps| ensures Firsts(es)[b] == SharedParts(Firsts(ps))[b] {
      FlattenSlice(ps, size, b);
      FlattenSlice(es, size, b);
      assert Flatten(es)[Times(b, size)] == SharedParts(Flatten(ps))[Times(b, size)];
      assert es[b][0] == Flatten(es)[Times(b, size)] && ps[b][0] == Flatten(ps)[Times(b, size)];
    }
  }

  /** Cut and buckets contain every element of the original list exactly once. */
  lemma NothingLost<T>(picks: nat -> nat, original: seq<T>, shuffled: seq<T>, cut: seq<T>, buckets: seq<seq<T>>)
    requires Draws(picks) && shuffled == Shuffled(picks, original, Last(|original|))
    requires cut + Flatten(buckets) == shuffled
    ensures multiset(cut) + multiset(Flatten(buckets)) == multiset(original)
  {
    ShuffledElements(picks, original, Last(|original|));
    assert multiset(cut + Flatten(buckets)) == multiset(cut) + multiset(Flatten(buckets));
  }

  lemma {:induction false} LeftsCount<F>(buckets: seq<seq<SharedEdabit<F>>>, size: nat)
    requires size > 0 && forall b :: 0 <= b < |buckets| ==> |buckets[b]| == size
    ensures |Lefts(buckets)| == Times(|buckets|, size - 1)
  {
    if buckets != [] {
      LeftsCount(buckets[..|buckets| - 1], size);
    }
  }

  lemma ShuffledHalves<F(!new)>(picks: nat -> nat, r: Ring<F>, da: F, db: F, ea: Fp, eb: Fp, k: nat,
                                xs: seq<SharedEdabit<F>>, ys: seq<SharedEdabit<F>>)
    requires Draws(picks) && |xs| == |ys|
    requires forall i :: 0 <= i < |xs| ==> GoodHalves(r, da, db, ea, eb, k, xs[i], ys[i])
    ensures var xs', ys' := Shuffled(picks, xs, Last(|xs|)), Shuffled(picks, ys, Last(|ys|));
            forall i :: 0 <= i < |xs'| ==> GoodHalves(r, da, db, ea, eb, k, xs'[i], ys'[i])
  {
    hide GoodHalves, Shuffled;
    ShuffleAligned(picks, xs, ys, (x, y) => GoodHalves(r, da, db, ea, eb, k, x, y));
  }

  lemma ShuffledTriples<F(!new)>(picks: nat -> nat, r: Ring<F>, da: F, db: F, ts: seq<SharedTriple<F>>,
                                 us: seq<SharedTriple<F>>)
    requires Draws(picks) && GoodTriples(r, da, db, ts, us)
    ensures GoodTriples(r, da, db, Shuffled(picks, ts, Last(|ts|)), Shuffled(picks, us, Last(|us|)))
  {
    hide GoodTriple, Shuffled;
    ShuffleAligned(picks, ts, us, (t, u) => GoodTriple(r, da, db, t, u));
  }

  lemma BucketsOfHalves<F(!new)>(r: Ring<F>, da: F, db: F, ea: Fp, eb: Fp, k: nat, size: nat,
                                 xs: seq<SharedEdabit<F>>, ys: seq<SharedEdabit<F>>, ba: seq<seq<SharedEdabit<F>>>,
                                 bb: seq<seq<SharedEdabit<F>>>)
    requires size > 0 && |xs| == |ys| && |ba| == |bb| && Flatten(ba) == xs && Flatten(bb) == ys
    requires forall b :: 0 <= b < |ba| ==> |ba[b]| == |bb[b]| == size
    requires forall i :: 0 <= i < |xs| ==> GoodHalves(r, da, db, ea, eb, k, xs[i], ys[i])
    ensures GoodBuckets(r, da, db, ea, eb, k, ba, bb)
  {
    hide GoodHalves, Flatten;
    forall b, j | 0 <= b < |ba| && 0 <= j < |ba[b]| ensures GoodHalves(r, da, db, ea, eb, k, ba[b][j], bb[b][j]) {
      FlattenSlice(ba, size, b);
      FlattenSlice(bb, size, b);
      assert ba[b][j] == xs[Times(b, size) + j] && bb[b][j] == ys[Times(b, size) + j];
    }
  }

  lemma TriplesNeeded(n: nat, pairs: nat, k: nat)
    ensures Times(n, Times(pairs, k)) == Times(k, Times(n, pairs))
  {
    hide Times;
    TimesIsProduct(pairs, k);
    TimesIsProduct(n, Times(pairs, k));
    TimesIsProduct(n, pairs);
    TimesIsProduct(k, Times(n, pairs));
    Rearrange(n, pairs, k);
  }

  lemma Rearrange(a: nat, b: nat, c: nat)
    ensures a * (b * c) == c * (a * b)
  {
  }

  lemma GoodTripleParts<F(!new)>(r: Ring<F>, da: F, db: F, ts: seq<SharedTriple<F>>, us: seq<SharedTriple<F>>)
    requires GoodTriples(r, da, db, ts, us)
    ensures SharedAll(r, da, db, TriplesA(ts), TriplesA(us)) && SharedAll(r, da, db, TriplesB(ts), TriplesB(us))
    ensures SharedAll(r, da, db, TriplesC(ts), TriplesC(us))
    ensures forall i :: 0 <= i < |ts| ==>
      Clear(r, ts[i].c, us[i].c) == r.mul(Clear(r, ts[i].a, us[i].a), Clear(r, ts[i].b, us[i].b))
  {
    hide Shared, Clear;
    forall i | 0 <= i < |ts|
      ensures Shared(r, da, db, ts[i].a, us[i].a) && Shared(r, da, db, ts[i].b, us[i].b)
      ensures Shared(r, da, db, ts[i].c, us[i].c)
      ensures Clear(r, ts[i].c, us[i].c) == r.mul(Clear(r, ts[i].a, us[i].a), Clear(r, ts[i].b, us[i].b))
    {
      assert GoodTriple(r, da, db, ts[i], us[i]);
    }
  }

  lemma HalvesOf<F(!new)>(r: Ring<F>, da: F, db: F, ea: Fp, eb: Fp, k: nat, xs: seq<SharedEdabit<F>>,
                          ys: seq<SharedEdabit<F>>)
    requires |xs| == |ys| && forall i :: 0 <= i < |xs| ==> GoodHalves(r, da, db, ea, eb, k, xs[i], ys[i])
    ensures SharedBatch(r, da, db, xs, ys, k) && SharedValues(ea, eb, xs, ys) && SameLengths(xs, ys, k)
  {
    hide GoodHalves;
    HalvesMean(r, da, db, ea, eb, k, xs, ys);
  }

  /** What the check establishes about its input, its cut and its buckets. */
  ghost predicate CutOutcome<F>(k: nat, size: nat, numCut: nat, n: nat, picks: nat -> nat, xs: seq<SharedEdabit<F>>,
                                ys: seq<SharedEdabit<F>>, cutA: seq<SharedEdabit<F>>, cutB: seq<SharedEdabit<F>>,
                                ba: seq<seq<SharedEdabit<F>>>, bb: seq<seq<SharedEdabit<F>>>)
    requires Draws(picks)
  {
    && |cutA| == |cutB| == numCut
    && cutA + Flatten(ba) == Shuffled(picks, xs, Last(|xs|)) && cutB + Flatten(bb) == Shuffled(picks, ys, Last(|ys|))
    && SameLengths(cutA, cutB, k) && BucketLengths(ba, bb, k) && |ba| == n
    && (forall b :: 0 <= b < n ==> |ba[b]| == |bb[b]| == size)
    && multiset(cutA) + multiset(Flatten(ba)) == multiset(xs)
    && multiset(cutB) + multiset(Flatten(bb)) == multiset(ys)
  }

  /** The three shuffles of the halves. */
  method ShuffleHalves<F(!new)>(picks: nat -> nat, ownerFirst: bool, private: seq<PrivateEdabit<F>>,
                                xs: seq<SharedEdabit<F>>, ys: seq<SharedEdabit<F>>)
    returns (ps: seq<PrivateEdabit<F>>, own: seq<SharedEdabit<F>>, xs': seq<SharedEdabit<F>>, ys': seq<SharedEdabit<F>>)
    requires Draws(picks) && SharedParts(private) == if ownerFirst then xs else ys
    ensures xs' == Shuffled(picks, xs, Last(|xs|)) && ys' == Shuffled(picks, ys, Last(|ys|))
    ensures own == SharedParts(ps) && own == if ownerFirst then xs' else ys'
    ensures ps == Shuffled(picks, private, Last(|private|))
  {
    hide Draws, Shuffled, SharedParts, Last;
    assert |private| == |SharedParts(private)|;
    ps, own := OwnerShuffle(picks, private);
    var other := ShuffleList(picks, if ownerFirst then ys else xs);
    xs', ys' := if ownerFirst then own else other, if ownerFirst then other else own;
  }

  /** Both peers shuffle their halves with the same choices and split them; the owner also shuffles its private
      copies. */
  method RunShuffleAndSplit<F(!new)>(ghost r: Ring<F>, ghost da: F, ghost db: F, ghost ea: Fp, ghost eb: Fp,
                                     ghost k: nat, size: nat, numCut: nat, ghost n: nat,
                               picks: nat -> nat, ownerFirst: bool, private: seq<PrivateEdabit<F>>,
                               xs: seq<SharedEdabit<F>>, ys: seq<SharedEdabit<F>>)
    returns (ps: seq<PrivateEdabit<F>>, cutA: seq<SharedEdabit<F>>, cutB: seq<SharedEdabit<F>>,
             ba: seq<seq<SharedEdabit<F>>>, bb: seq<seq<SharedEdabit<F>>>)
    requires Draws(picks) && size > 0 && SharedParts(private) == if ownerFirst then xs else ys
    requires |xs| == |ys| == numCut + Times(n, size)
    requires forall i :: 0 <= i < |xs| ==> GoodHalves(r, da, db, ea, eb, k, xs[i], ys[i])
    ensures CutOutcome(k, size, numCut, n, picks, xs, ys, cutA, cutB, ba, bb)
    ensures ps == Shuffled(picks, private, Last(|private|))
    ensures SharedBatch(r, da, db, cutA, cutB, k) && SharedValues(ea, eb, cutA, cutB)
    ensures GoodBuckets(r, da, db, ea, eb, k, ba, bb)
    ensures |ps| == |xs| && SharedParts(ps[numCut..]) == Flatten(if ownerFirst then ba else bb)
  {
    hide Flatten, Draws, GoodHalves, Shuffled, SharedParts, Times, SharedBatch, SharedValues, GoodBuckets,
         BucketLengths, SameLengths, Last;
    ShuffledHalves(picks, r, da, db, ea, eb, k, xs, ys);
    var xs', ys', own;
    ps, own, xs', ys' := ShuffleHalves(picks, ownerFirst, private, xs, ys);
    cutA, cutB := xs'[..numCut], ys'[..numCut];
    ba := Split(xs'[numCut..], size, n);
    bb := Split(ys'[numCut..], size, n);
    assert cutA + Flatten(ba) == xs' && cutB + Flatten(bb) == ys';
    NothingLost(picks, xs, xs', cutA, ba);
    NothingLost(picks, ys, ys', cutB, bb);
    HalvesOf(r, da, db, ea, eb, k, cutA, cutB);
    BucketsOfHalves(r, da, db, ea, eb, k, size, xs'[numCut..], ys'[numCut..], ba, bb);
    GoodPairs(r, da, db, ea, eb, k, ba, bb);
    PrivateTail(ps, own, numCut);
  }

  /** The triples as the shuffle and the two splits leave them: the opened ones and those of each bucket. */
  datatype SplitTriples<F> = SplitTriples(cut: seq<SharedTriple<F>>, buckets: seq<seq<SharedTriple<F>>>)

  ghost predicate TriplesSplit<F>(k: nat, size: nat, numCut: nat, n: nat, picks: nat -> nat, ts: seq<SharedTriple<F>>,
                                  a: SplitTriples<F>)
    requires size > 0 && Draws(picks)
  {
    && a.cut + Flatten(a.buckets) == Shuffled(picks, ts, Last(|ts|))
    && |a.cut| == Times(numCut, k) && |a.buckets| == n
    && (forall b :: 0 <= b < n ==> |a.buckets[b]| == Times(size - 1, k))
    && multiset(a.cut) + multiset(Flatten(a.buckets)) == multiset(ts)
  }

  ghost predicate TripleCounts<F>(k: nat, size: nat, n: nat, a: SplitTriples<F>)
    requires size > 0
  {
    |Flatten(a.buckets)| == Times(n, Times(size - 1, k))
  }

  /** Both peers shuffle their halves of the triples with the same choices and split them. */
  method RunSplitTriples<F(!new)>(ghost r: Ring<F>, ghost da: F, ghost db: F, k: nat, size: nat, numCut: nat,
                                  ghost n: nat, picks: nat -> nat, ts: seq<SharedTriple<F>>, us: seq<SharedTriple<F>>)
    returns (a: SplitTriples<F>, b: SplitTriples<F>)
    requires Draws(picks) && k > 0 && size > 1
    requires |ts| == Times(numCut, k) + Times(n, Times(size - 1, k)) && GoodTriples(r, da, db, ts, us)
    ensures TriplesSplit(k, size, numCut, n, picks, ts, a) && TriplesSplit(k, size, numCut, n, picks, us, b)
    ensures TripleCounts(k, size, n, a)
    ensures GoodTriples(r, da, db, a.cut, b.cut) && GoodTriples(r, da, db, Flatten(a.buckets), Flatten(b.buckets))
  {
    hide Flatten, Draws, Shuffled, GoodTriple, Times;
    ShuffledTriples(picks, r, da, db, ts, us);
    TripleLengths(r, da, db, ts, us);
    var ts' := ShuffleList(picks, ts);
    var us' := ShuffleList(picks, us);
    var c := Times(numCut, k);
    TimesPositive(size - 1, k);
    var bucketsA := Split(ts'[c..], Times(size - 1, k), n);
    var bucketsB := Split(us'[c..], Times(size - 1, k), n);
    a, b := SplitTriples(ts'[..c], bucketsA), SplitTriples(us'[..c], bucketsB);
    assert a.cut + Flatten(bucketsA) == ts' && b.cut + Flatten(bucketsB) == us';
    NothingLost(picks, ts, ts', a.cut, bucketsA);
    NothingLost(picks, us, us', b.cut, bucketsB);
  }

  /** In every bucket one consistent member makes all of them consistent. */
  ghost predicate BucketsTogether<F>(r: Ring<F>, ba: seq<seq<SharedEdabit<F>>>, bb: seq<seq<SharedEdabit<F>>>, k: nat)
    requires BucketLengths(ba, bb, k)
  {
    forall b, i, j :: 0 <= b < |ba| && 0 <= i < |ba[b]| && 0 <= j < |ba[b]| ==>
      EdabitDiscrepancy(r, ba[b][j], bb[b][j]) == 0 ==> EdabitDiscrepancy(r, ba[b][i], bb[b][i]) == 0
  }

  lemma TogetherWhenCancelling<F(!new)>(r: Ring<F>, ba: seq<seq<SharedEdabit<F>>>, bb: seq<seq<SharedEdabit<F>>>,
                                        k: nat)
    requires BucketLengths(ba, bb, k) && forall b :: 0 <= b < |ba| ==> BucketCancels(r, ba[b], bb[b], k)
    ensures BucketsTogether(r, ba, bb, k)
  {
    hide EdabitDiscrepancy, BucketCancels;
    forall b, i, j | 0 <= b < |ba| && 0 <= i < |ba[b]| && 0 <= j < |ba[b]|
        && EdabitDiscrepancy(r, ba[b][j], bb[b][j]) == 0
      ensures EdabitDiscrepancy(r, ba[b][i], bb[b][i]) == 0
    {
      InconsistentTogether(r, ba[b], bb[b], k, j);
    }
  }

  /** `cut_and_choose_local` on one side, `cut_and_choose_remote` on the other, for arbitrary edaBits and correct
      triples. Every edaBit and every triple lands in the cut or in exactly one bucket; the check accepts exactly when
      the cut is consistent and the discrepancies cancel in every bucket; the outputs are the buckets' first members,
      and one of them is only inconsistent when its whole bucket is. */
  method RunCutAndChoose<F(!new, ==)>(a2: Peer<F>, b2: Peer<F>, ap: Peer<Fp>, bp: Peer<Fp>,
                                      hash2: seq<F> -> seq<F>, hashP: seq<Fp> -> seq<Fp>, k: nat, size: nat,
                                      numCut: nat, n: nat, picksE: nat -> nat, picksT: nat -> nat, ownerFirst: bool,
                                      private: seq<PrivateEdabit<F>>, xs: seq<SharedEdabit<F>>,
                                      ys: seq<SharedEdabit<F>>, ts: seq<SharedTriple<F>>, us: seq<SharedTriple<F>>,
                                      ins: DabitInputs<F>)
    returns (outPrivate: seq<PrivateEdabit<F>>, outA: seq<SharedEdabit<F>>, outB: seq<SharedEdabit<F>>, ok: bool,
             cutA: seq<SharedEdabit<F>>, cutB: seq<SharedEdabit<F>>, ba: seq<seq<SharedEdabit<F>>>,
             bb: seq<seq<SharedEdabit<F>>>, ta: SplitTriples<F>, tb: SplitTriples<F>, trace: CutTrace<F>)
    requires Ready(a2, b2, ap, bp) && Hashes(hash2) && Hashes(hashP) && Draws(picksE) && Draws(picksT) && k > 0
    requires size > 1
    requires SharedParts(private) == if ownerFirst then xs else ys
    requires |xs| == |ys| == numCut + Times(n, size)
    requires forall i :: 0 <= i < |xs| ==>
      GoodHalves(a2.local.r, a2.remote.delta, b2.remote.delta, ap.remote.delta, bp.remote.delta, k, xs[i], ys[i])
    requires |ts| == Times(numCut, k) + Times(n, Times(size - 1, k))
    requires GoodTriples(a2.local.r, a2.remote.delta, b2.remote.delta, ts, us)
    requires DabitShapes(Times(n, size - 1), ins)
    modifies a2.local, a2.remote, b2.local, b2.remote, ap.local, ap.remote, bp.local, bp.remote
    ensures Ready(a2, b2, ap, bp)
    ensures CutOutcome(k, size, numCut, n, picksE, xs, ys, cutA, cutB, ba, bb)
    ensures TriplesSplit(k, size, numCut, n, picksT, ts, ta) && TriplesSplit(k, size, numCut, n, picksT, us, tb)
    ensures var m := Times(n, size - 1);
            ok <==> && AllConsistent(a2.local.r, cutA, cutB)
                    && (m == 0 || CheckParameters(m, Gamma(m)))
                    && forall b :: 0 <= b < n ==> BucketCancels(a2.local.r, ba[b], bb[b], k)
    ensures ok ==> BucketsTogether(a2.local.r, ba, bb, k)
    ensures ok ==>
      && outA == Firsts(ba) && outB == Firsts(bb) && SharedParts(outPrivate) == (if ownerFirst then outA else outB)
      && outPrivate == EveryFirst(Shuffled(picksE, private, Last(|private|)), numCut, size, n)
    ensures ok ==> CutTraced(old(StockOf(a2.local, ap.local)), k, cutA, cutB, ba, bb, ta, tb, ins, trace)
    ensures ok ==>
              var m := Times(n, size - 1);
              var (m2, mp) := DabitVoles(m, |ap.local.basis|);
              && StockOf(a2.local, ap.local) == old(StockOf(a2.local, ap.local)).After(m2, mp)
              && StockOf(b2.local, bp.local) == old(StockOf(b2.local, bp.local)).After(m, m)
  {
    hide Linked, Shared, IsBit, AreBits, DrawsBits, IsBinary, Flatten, CheckParameters, Gamma, Shapes, Draws,
         GoodTriple, BucketCancels, GoodHalves, Shuffled, Hashes, SharedParts, AllConsistent, Times, GoodBuckets,
         SharedBatch, SharedValues, GoodTriples, DabitShapes, TriplesSplit, BucketsTogether, TripleCounts, CutTraced,
         EveryFirst, Last;
    ghost var r, da, db := a2.local.r, a2.remote.delta, b2.remote.delta;
    var ps;
    ps, cutA, cutB, ba, bb :=
      RunShuffleAndSplit(r, da, db, ap.remote.delta, bp.remote.delta, k, size, numCut, n, picksE, ownerFirst, private,
                         xs, ys);
    ta, tb := RunSplitTriples(r, da, db, k, size, numCut, n, picksT, ts, us);
    outPrivate, outA, outB := [], [], [];
    ok, trace := RunCutChecks(a2, b2, ap, bp, hash2, hashP, k, size, n, cutA, cutB, ba, bb, ta, tb, ins);
    if ok {
      TogetherWhenCancelling(r, ba, bb, k);
      var bucketsP := Split(ps[numCut..], size, n);
      FirstsAligned(bucketsP, if ownerFirst then ba else bb, size);
      outPrivate, outA, outB := Firsts(bucketsP), Firsts(ba), Firsts(bb);
      EveryFirstIs(ps, numCut, size, n, bucketsP);
    }
  }

  /** The first of every group of `size`, after numCut others. */
  function EveryFirst<T>(s: seq<T>, numCut: nat, size: nat, n: nat): seq<T>
    requires size > 0 && |s| == numCut + Times(n, size)
  {
    seq(n, b requires 0 <= b < n => TimesMonotone(b + 1, n, size); s[numCut + Times(b, size)])
  }

  lemma EveryFirstIs<T>(s: seq<T>, numCut: nat, size: nat, n: nat, buckets: seq<seq<T>>)
    requires size > 0 && |s| == numCut + Times(n, size) && Flatten(buckets) == s[numCut..] && |buckets| == n
    requires forall b :: 0 <= b < n ==> |buckets[b]| == size
    ensures Firsts(buckets) == EveryFirst(s, numCut, size, n)
  {
    hide Flatten;
    forall b | 0 <= b < n ensures Firsts(buckets)[b] == EveryFirst(s, numCut, size, n)[b] {
      TimesMonotone(b + 1, n, size);
      FlattenSlice(buckets, size, b);
      assert buckets[b][0] == s[numCut..][Times(b, size)..Times(b, size) + size][0];
    }
  }

  /** What is opened and sent: the cut, the opened triples, the pairs. */
  datatype CutTrace<F> = CutTrace(cut: Shown<F>, xs: seq<F>, ys: seq<F>, zs: seq<F>, pairs: PairsTrace<F>)

  ghost predicate CutTraced<F>(s: Stock<F>, k: nat, cutA: seq<SharedEdabit<F>>, cutB: seq<SharedEdabit<F>>,
                               ba: seq<seq<SharedEdabit<F>>>, bb: seq<seq<SharedEdabit<F>>>, ta: SplitTriples<F>,
                               tb: SplitTriples<F>, ins: DabitInputs<F>, t: CutTrace<F>)
    requires BucketLengths(ba, bb, k)
  {
    && t.cut == ShownOf(s.r, cutA, cutB) && |ta.cut| == |tb.cut|
    && t.xs == Clears(s.r, TriplesA(ta.cut), TriplesA(tb.cut))
    && t.ys == Clears(s.r, TriplesB(ta.cut), TriplesB(tb.cut))
    && t.zs == Clears(s.r, TriplesC(ta.cut), TriplesC(tb.cut))
    && (Lefts(ba) != [] ==>
          PairsTraced(s, k, Lefts(ba), Lefts(bb), Rights(ba), Rights(bb), Flatten(ta.buckets), Flatten(tb.buckets), ins,
                      t.pairs))
  }

  lemma TripleLengths<F>(r: Ring<F>, da: F, db: F, ts: seq<SharedTriple<F>>, us: seq<SharedTriple<F>>)
    requires GoodTriples(r, da, db, ts, us)
    ensures |ts| == |us|
  {
  }

  lemma PrivateTail<F>(ps: seq<PrivateEdabit<F>>, own: seq<SharedEdabit<F>>, numCut: nat)
    requires own == SharedParts(ps) && numCut <= |ps|
    ensures own[numCut..] == SharedParts(ps[numCut..])
  {
  }

  /** The checks on the shuffled lists: the opened edaBits, the opened triples, the buckets. */
  method RunCutChecks<F(!new, ==)>(a2: Peer<F>, b2: Peer<F>, ap: Peer<Fp>, bp: Peer<Fp>,
                                   hash2: seq<F> -> seq<F>, hashP: seq<Fp> -> seq<Fp>, k: nat, size: nat, n: nat,
                                   cutA: seq<SharedEdabit<F>>, cutB: seq<SharedEdabit<F>>,
                                   ba: seq<seq<SharedEdabit<F>>>, bb: seq<seq<SharedEdabit<F>>>,
                                   ta: SplitTriples<F>, tb: SplitTriples<F>, ins: DabitInputs<F>)
    returns (ok: bool, trace: CutTrace<F>)
    requires Ready(a2, b2, ap, bp) && Hashes(hash2) && Hashes(hashP) && k > 0 && size > 1
    requires SharedBatch(a2.local.r, a2.remote.delta, b2.remote.delta, cutA, cutB, k) && SameLengths(cutA, cutB, k)
    requires SharedValues(ap.remote.delta, bp.remote.delta, cutA, cutB)
    requires GoodBuckets(a2.local.r, a2.remote.delta, b2.remote.delta, ap.remote.delta, bp.remote.delta, k, ba, bb)
    requires BucketLengths(ba, bb, k)
    requires |ba| == n && forall b :: 0 <= b < n ==> |ba[b]| == size
    requires TripleCounts(k, size, n, ta) && GoodTriples(a2.local.r, a2.remote.delta, b2.remote.delta, ta.cut, tb.cut)
    requires GoodTriples(a2.local.r, a2.remote.delta, b2.remote.delta, Flatten(ta.buckets), Flatten(tb.buckets))
    requires DabitShapes(Times(n, size - 1), ins)
    modifies a2.local, a2.remote, b2.local, b2.remote, ap.local, ap.remote, bp.local, bp.remote
    ensures Ready(a2, b2, ap, bp)
    ensures var m := Times(n, size - 1);
            ok <==> && AllConsistent(a2.local.r, cutA, cutB)
                    && (m == 0 || CheckParameters(m, Gamma(m)))
                    && forall b :: 0 <= b < n ==> BucketCancels(a2.local.r, ba[b], bb[b], k)
    ensures ok ==> CutTraced(old(StockOf(a2.local, ap.local)), k, cutA, cutB, ba, bb, ta, tb, ins, trace)
    ensures ok ==>
              var m := Times(n, size - 1);
              var (m2, mp) := DabitVoles(m, |ap.local.basis|);
              && StockOf(a2.local, ap.local) == old(StockOf(a2.local, ap.local)).After(m2, mp)
              && StockOf(b2.local, bp.local) == old(StockOf(b2.local, bp.local)).After(m, m)
  {
    hide Linked, Shared, Clear, IsBit, AreBits, DrawsBits, IsBinary, Flatten, Lefts, Rights, CheckParameters, Gamma,
         Shapes, GoodTriple, EdabitDiscrepancy, BucketCancels, GoodHalves, Hashes, AllConsistent, Times, SharedBatch,
         SharedValues, GoodBuckets, PairsTraced, ShownOf, DabitShapes, GoodTriples;
    var cut, xs, ys, zs := Shown([], []), [], [], [];
    var pairs := PairsTrace(FdabitTrace([], [], ProductProof(0, 0)), [], [], [], Shown([], []));
    trace := CutTrace(cut, xs, ys, zs, pairs);
    ok, cut := RunOpenAndCheck(a2, b2, ap, bp, hash2, hashP, k, cutA, cutB);
    if !ok {
      return;
    }
    TripleLengths(a2.local.r, a2.remote.delta, b2.remote.delta, ta.cut, tb.cut);
    GoodTripleParts(a2.local.r, a2.remote.delta, b2.remote.delta, ta.cut, tb.cut);
    ok, xs, ys, zs := RunOpenTriples(a2, b2, hash2, ta.cut, tb.cut);
    if !ok {
      return;
    }
    LeftsCount(ba, size);
    TriplesNeeded(n, size - 1, k);
    ok, pairs := RunBucketPairs(a2, b2, ap, bp, hash2, hashP, k, ba, bb, ta.buckets, tb.buckets, ins);
    trace := CutTrace(cut, xs, ys, zs, pairs);
  }

  lemma TimesPositive(n: nat, b: nat)
    requires n > 0 && b > 0
    ensures Times(n, b) > 0
  {
  }
}
