/** Range proofs: products of (v - c), splitting into chunks, and signed bounds. */
module RangeCheck {
  import opened Options
  import opened Arith
  import opened Rings
  import opened Polynomials
  import opened Homcom
  import opened HdQuicksilver
  import opened HdMacs
  import opened PrimeField

  /** n * 1 */
  function FromNat<F>(r: Ring<F>, n: nat): F {
    if n == 0 then r.zero else r.add(FromNat(r, n - 1), r.one)
  }

  /** v (v - 1) ... (v - (n-1)), on full coefficient sequences, on keys, and on clear values. */
  function RangePoly<F>(r: Ring<F>, c: seq<F>, n: nat): (p: seq<F>)
    requires c != [] && n >= 1
    ensures p != []
  {
    if n == 1 then c else MulSeq(r, RangePoly(r, c, n - 1), HdSubCst(r, c, FromNat(r, n - 1)))
  }

  function RangeKey<F>(r: Ring<F>, delta: F, k: HdKey<F>, n: nat): HdKey<F>
    requires n >= 1
  {
    if n == 1 then k else KeyMul(r, RangeKey(r, delta, k, n - 1), KeySubCst(r, delta, k, FromNat(r, n - 1)))
  }

  ghost function RangeValue<F>(r: Ring<F>, v: F, n: nat): F
    requires n >= 1
  {
    if n == 1 then v else r.mul(RangeValue(r, v, n - 1), r.Sub(v, FromNat(r, n - 1)))
  }

  lemma {:induction false} RangeAuth<F(!new)>(r: Ring<F>, delta: F, c: seq<F>, k: HdKey<F>, n: nat)
    requires IsRing(r) && HdAuth(r, delta, c, k) && n >= 1
    ensures HdAuth(r, delta, RangePoly(r, c, n), RangeKey(r, delta, k, n))
    ensures RangeKey(r, delta, k, n).degree == Times(n, k.degree)
    ensures Value(RangePoly(r, c, n)) == RangeValue(r, Value(c), n)
  {
    if n > 1 {
      RangeAuth(r, delta, c, k, n - 1);
      HdSubCstAuth(r, delta, c, FromNat(r, n - 1), k);
      HdMulAuth(r, delta, RangePoly(r, c, n - 1), HdSubCst(r, c, FromNat(r, n - 1)),
                RangeKey(r, delta, k, n - 1), KeySubCst(r, delta, k, FromNat(r, n - 1)));
    }
  }

  lemma {:induction false} RangeValueAt<F(!new)>(r: Ring<F>, v: F, n: nat, j: nat)
    requires IsRing(r) && j < n && v == FromNat(r, j)
    ensures RangeValue(r, v, n) == r.zero
  {
    if n > 1 {
      if j == n - 1 {
        SubIsZero(r, v, FromNat(r, n - 1));
        MulZero(r, RangeValue(r, v, n - 1));
      } else {
        RangeValueAt(r, v, n - 1, j);
        MulZero(r, r.Sub(v, FromNat(r, n - 1)));
      }
    }
  }

  lemma {:induction false} RangeValueRoot<F(!new)>(r: Ring<F>, v: F, n: nat) returns (j: nat)
    requires IsDomain(r) && n >= 1 && RangeValue(r, v, n) == r.zero
    ensures j < n && v == FromNat(r, j)
  {
    j := n - 1;
    if n > 1 {
      var head, last := RangeValue(r, v, n - 1), r.Sub(v, FromNat(r, n - 1));
      SubIsZero(r, v, FromNat(r, n - 1));
      assert At((head, last));
      if last != r.zero {
        j := RangeValueRoot(r, v, n - 1);
      }
    }
  }

  /** Over a field the product vanishes exactly at 0, 1, ..., n-1. */
  lemma RangeValueZero<F(!new)>(r: Ring<F>, v: F, n: nat)
    requires IsDomain(r) && n >= 1
    ensures RangeValue(r, v, n) == r.zero <==> exists j: nat :: j < n && v == FromNat(r, j)
  {
    if j: nat :| j < n && v == FromNat(r, j) {
      RangeValueAt(r, v, n, j);
    }
    if RangeValue(r, v, n) == r.zero {
      var j := RangeValueRoot(r, v, n);
    }
  }

  lemma {:induction false} FromNatIsToFp(n: nat)
    ensures FromNat(FP, n) == ToFp(n)
  {
    if n == 0 {
      ToFpSmall(0);
    } else {
      FromNatIsToFp(n - 1);
      ToFpSmall(1);
      AddHom(n - 1, 1);
    }
  }

  /** The element is the image of an integer in [lower, upper]. */
  ghost predicate InRange(v: Fp, lower: int, upper: int) {
    exists z: int :: lower <= z <= upper && v == ToFp(z)
  }

  lemma Pow2RangeExact(v: Fp, bits: nat)
    ensures RangeValue(FP, v, Pow2(bits)) == 0 <==> InRange(v, 0, Pow2(bits) - 1)
  {
    FpIsDomain();
    RangeValueZero(FP, v, Pow2(bits));
    if j: nat :| j < Pow2(bits) && v == FromNat(FP, j) {
      FromNatIsToFp(j);
    }
    if InRange(v, 0, Pow2(bits) - 1) {
      var z :| 0 <= z <= Pow2(bits) - 1 && v == ToFp(z);
      FromNatIsToFp(z);
    }
  }

  // ---- chunks ----

  /** The number of chunks, and the size of chunk i. */
  function NumChunks(bits: nat, size: nat): (n: nat)
    requires bits > 0 && size > 0
    ensures n > 0 && Times(n - 1, size) < bits <= Times(n, size)
  {
    NumChunksBounds(bits, size);
    Quot(bits + size - 1, size)
  }

  lemma NumChunksBounds(bits: nat, size: nat)
    requires bits > 0 && size > 0
    ensures var n := Quot(bits + size - 1, size);
            n > 0 && Times(n - 1, size) < bits <= Times(n, size)
  {
    var n := Quot(bits + size - 1, size);
    TimesIsProduct(n, size);
    assert n == 0 ==> n * size == 0;
  }

  function LastChunkSize(bits: nat, size: nat): nat
    requires bits > 0 && size > 0
  {
    if Rem(bits, size) == 0 then size else Rem(bits, size)
  }

  lemma LastChunk(bits: nat, size: nat)
    requires bits > 0 && size > 0
    ensures LastChunkSize(bits, size) == bits - Times(NumChunks(bits, size) - 1, size)
  {
    var n := NumChunks(bits, size);
    TimesIsProduct(n - 1, size);
    assert (n - 1) * size + size == n * size;
    TimesIsProduct(n, size);
    if bits == n * size {
      QuotientIs(bits, size, n, 0);
    } else {
      QuotientIs(bits, size, n - 1, bits - (n - 1) * size);
    }
  }

  function ChunkSize(bits: nat, size: nat, i: nat): nat
    requires bits > 0 && size > 0
  {
    if i == NumChunks(bits, size) - 1 then LastChunkSize(bits, size) else size
  }

  /** The integer put together from its first n chunks. */
  ghost function FromChunks(cs: seq<nat>, size: nat): nat {
    if cs == [] then 0
    else var n := |cs| - 1; FromChunks(cs[..n], size) + Pow2(Times(n, size)) * cs[n]
  }

  function Images(cs: seq<nat>): seq<Fp> {
    seq(|cs|, i requires 0 <= i < |cs| => ToFp(cs[i]))
  }

  /** What the clear value of the recomposition check is: v minus the recombined chunks. */
  ghost function Recombined(v: Fp, cs: seq<Fp>, size: nat): Fp {
    if cs == [] then v
    else var n := |cs| - 1; FP.Sub(Recombined(v, cs[..n], size), FP.mul(ToFp(Pow2(Times(n, size))), cs[n]))
  }

  lemma RecombineStep(y: int, w: nat, x: nat)
    ensures FP.Sub(ToFp(y), FP.mul(ToFp(w), ToFp(x))) == ToFp(y - w * x)
  {
    MulHom(w, x);
    SubHom(y, w * x);
  }

  lemma {:induction false} RecombinedValue(z: int, cs: seq<nat>, size: nat)
    ensures Recombined(ToFp(z), Images(cs), size) == ToFp(z - FromChunks(cs, size))
  {
    if cs != [] {
      var n := |cs| - 1;
      RecombinedValue(z, cs[..n], size);
      assert Images(cs)[..n] == Images(cs[..n]);
      RecombineStep(z - FromChunks(cs[..n], size), Pow2(Times(n, size)), cs[n]);
    }
  }

  /** The chunks of z, as the prover cuts them. */
  function ChunkAt(z: nat, size: nat, n: nat, i: nat): nat {
    var shifted := Quot(z, Pow2(Times(i, size)));
    if i + 1 < n then Rem(shifted, Pow2(size)) else shifted
  }

  function Chunks(z: nat, size: nat, n: nat): (cs: seq<nat>)
    ensures |cs| == n
  {
    seq(n, i requires 0 <= i < n => ChunkAt(z, size, n, i))
  }

  /** Cutting all but the last chunk leaves z divided by the power reached so far. */
  lemma {:induction false} FromChunksPrefix(z: nat, size: nat, n: nat, k: nat)
    requires k < n
    ensures FromChunks(Chunks(z, size, n)[..k], size) + Pow2(Times(k, size)) * Quot(z, Pow2(Times(k, size))) == z
  {
    if k > 0 {
      var cs := Chunks(z, size, n);
      FromChunksPrefix(z, size, n, k - 1);
      assert cs[..k][..k - 1] == cs[..k - 1];
      var w, t := Pow2(Times(k - 1, size)), Pow2(size);
      var y := Quot(z, w);
      Pow2Add(Times(k - 1, size), size);
      DivTwice(z, w, t);
      SplitDigit(w, t, y);
    }
  }

  lemma SplitDigit(w: nat, t: nat, y: nat)
    requires t > 0
    ensures w * y == w * Rem(y, t) + w * t * Quot(y, t)
  {
    var q, s := Quot(y, t), Rem(y, t);
    assert w * (q * t + s) == w * s + w * t * q;
  }

  lemma ChunksRecombine(z: nat, size: nat, n: nat)
    requires n > 0
    ensures FromChunks(Chunks(z, size, n), size) == z
  {
    FromChunksPrefix(z, size, n, n - 1);
  }

  lemma ChunksFit(z: nat, bits: nat, size: nat)
    requires bits > 0 && size > 0 && z < Pow2(bits)
    ensures var cs := Chunks(z, size, NumChunks(bits, size));
            forall i :: 0 <= i < |cs| ==> cs[i] < Pow2(ChunkSize(bits, size, i))
  {
    var n := NumChunks(bits, size);
    LastChunk(bits, size);
    Pow2Add(Times(n - 1, size), LastChunkSize(bits, size));
    DivBound(z, Pow2(Times(n - 1, size)), Pow2(LastChunkSize(bits, size)));
  }

  /** Chunks within their sizes recombine below 2^bits. */
  lemma {:induction false} FromChunksBound(cs: seq<nat>, bits: nat, size: nat, k: nat)
    requires bits > 0 && size > 0 && |cs| == NumChunks(bits, size) && k <= |cs|
    requires forall i :: 0 <= i < |cs| ==> cs[i] < Pow2(ChunkSize(bits, size, i))
    ensures FromChunks(cs[..k], size) < Pow2(if k == |cs| then bits else Times(k, size))
  {
    if k > 0 {
      FromChunksBound(cs, bits, size, k - 1);
      LastChunk(bits, size);
      assert cs[..k][..k - 1] == cs[..k - 1];
      var w, t, x := Pow2(Times(k - 1, size)), Pow2(ChunkSize(bits, size, k - 1)), cs[k - 1];
      Pow2Add(Times(k - 1, size), ChunkSize(bits, size, k - 1));
      DigitBound(FromChunks(cs[..k - 1], size), w, t, x);
    }
  }

  lemma DigitBound(low: nat, w: nat, t: nat, x: nat)
    requires low < w && x < t
    ensures low + w * x < w * t
  {
    MulMonotone(x + 1, t, w);
    assert (x + 1) * w == w * x + w;
  }

  /** Every clear value that the chunked check sends to zero: the recomposition and one product per chunk
      (a single product when one chunk is enough). */
  ghost predicate ChunkedChecksVanish(v: Fp, bits: nat, size: nat, chunks: seq<Fp>)
    requires bits > 0 && size > 0
  {
    if size >= bits then RangeValue(FP, v, Pow2(bits)) == 0
    else
      && |chunks| == NumChunks(bits, size)
      && Recombined(v, chunks, size) == 0
      && forall i :: 0 <= i < |chunks| ==> RangeValue(FP, chunks[i], Pow2(ChunkSize(bits, size, i))) == 0
  }

  lemma ChunkDigits(chunks: seq<Fp>, bits: nat, size: nat) returns (cs: seq<nat>)
    requires bits > 0 && size > 0 && |chunks| == NumChunks(bits, size)
    requires forall i :: 0 <= i < |chunks| ==> RangeValue(FP, chunks[i], Pow2(ChunkSize(bits, size, i))) == 0
    ensures |cs| == |chunks|
    ensures forall i :: 0 <= i < |cs| ==> cs[i] < Pow2(ChunkSize(bits, size, i)) && chunks[i] == ToFp(cs[i])
  {
    cs := [];
    while |cs| < |chunks|
      invariant |cs| <= |chunks|
      invariant forall i :: 0 <= i < |cs| ==> cs[i] < Pow2(ChunkSize(bits, size, i)) && chunks[i] == ToFp(cs[i])
    {
      var i := |cs|;
      Pow2RangeExact(chunks[i], ChunkSize(bits, size, i));
      var z :| 0 <= z <= Pow2(ChunkSize(bits, size, i)) - 1 && chunks[i] == ToFp(z);
      cs := cs + [z];
    }
  }

  /** For every width and chunk size: chunk commitments that make every checked value vanish exist exactly
      when the element is an integer below 2^bits. */
  lemma ChunkedExact(v: Fp, bits: nat, size: nat)
    requires bits > 0 && size > 0
    ensures (exists chunks :: ChunkedChecksVanish(v, bits, size, chunks)) <==> InRange(v, 0, Pow2(bits) - 1)
  {
    if size >= bits {
      Pow2RangeExact(v, bits);
      assert ChunkedChecksVanish(v, bits, size, []) <==> InRange(v, 0, Pow2(bits) - 1);
    } else {
      if chunks :| ChunkedChecksVanish(v, bits, size, chunks) {
        ChunkedSound(v, bits, size, chunks);
      }
      if InRange(v, 0, Pow2(bits) - 1) {
        var z :| 0 <= z <= Pow2(bits) - 1 && v == ToFp(z);
        ChunkedComplete(z, bits, size);
      }
    }
  }

  lemma ChunkedSound(v: Fp, bits: nat, size: nat, chunks: seq<Fp>)
    requires 0 < size < bits && ChunkedChecksVanish(v, bits, size, chunks)
    ensures InRange(v, 0, Pow2(bits) - 1)
  {
    var cs := ChunkDigits(chunks, bits, size);
    assert chunks == Images(cs);
    DigitsSound(v, cs, bits, size);
  }

  lemma DigitsSound(v: Fp, cs: seq<nat>, bits: nat, size: nat)
    requires bits > 0 && size > 0 && |cs| == NumChunks(bits, size)
    requires forall i :: 0 <= i < |cs| ==> cs[i] < Pow2(ChunkSize(bits, size, i))
    requires Recombined(v, Images(cs), size) == 0
    ensures InRange(v, 0, Pow2(bits) - 1)
  {
    var z := FromChunks(cs, size);
    assert z < Pow2(bits) by {
      assert cs[..|cs|] == cs;
      FromChunksBound(cs, bits, size, |cs|);
    }
    assert v == ToFp(z) by {
      Canonical(v);
      RecombinedValue(v, cs, size);
      ZeroDifference(v, z);
    }
  }

  lemma SmallIsInRange(z: nat, bits: nat)
    requires z < Pow2(bits)
    ensures RangeValue(FP, ToFp(z), Pow2(bits)) == 0
  {
    assert 0 <= z <= Pow2(bits) - 1 && ToFp(z) == ToFp(z);
    Pow2RangeExact(ToFp(z), bits);
  }

  function HonestChunks(z: nat, bits: nat, size: nat): (fs: seq<Fp>)
    requires bits > 0 && size > 0
    ensures |fs| == NumChunks(bits, size)
  {
    Images(Chunks(z, size, NumChunks(bits, size)))
  }

  lemma ChunkedComplete(z: nat, bits: nat, size: nat)
    requires 0 < size < bits && z < Pow2(bits)
    ensures ChunkedChecksVanish(ToFp(z), bits, size, HonestChunks(z, bits, size))
  {
    var n := NumChunks(bits, size);
    var cs := Chunks(z, size, n);
    ChunksRecombine(z, size, n);
    RecombinedValue(z, cs, size);
    ToFpSmall(0);
    ChunksFit(z, bits, size);
    var fs := HonestChunks(z, bits, size);
    forall i | 0 <= i < n ensures RangeValue(FP, fs[i], Pow2(ChunkSize(bits, size, i))) == 0 {
      SmallIsInRange(cs[i], ChunkSize(bits, size, i));
    }
  }

  // ---- signed bounds ----

  /** Division that truncates toward zero. */
  function TruncDiv(a: int, b: int): int
    requires b > 0
  {
    if a >= 0 then a / b else -((-a) / b)
  }

  /** The parameters of the two power-of-two checks; None where the program's assertions abort.
      The variable the program calls p is P - 1. */
  function Prepare(lower: int, upper: int): (res: Option<(nat, Fp, Fp)>) {
    var p := P - 1;
    if p > 0 && TruncDiv(-p + 1, 2) < lower && lower < upper && upper < TruncDiv(p - 1, 2) then
      var m := CeilLog2(upper - lower);
      if upper - lower < Pow2(m) && Pow2(m) < TruncDiv(p - 1, 2) then
        var a := if lower < 0 then FpNeg(ToFp(-lower)) else ToFp(lower);
        var c := Pow2(m) - upper - 1;
        Some((m, a, if c < 0 then FpNeg(ToFp(-c)) else ToFp(c)))
      else None
    else None
  }

  lemma PrepareMeans(lower: int, upper: int)
    requires Prepare(lower, upper).Some?
    ensures var (m, a, c) := Prepare(lower, upper).value;
            && lower < upper && m > 0 && upper - lower < Pow2(m) && 2 * Pow2(m) + 2 < P
            && a == ToFp(lower) && c == ToFp(Pow2(m) - upper - 1)
  {
    var m := CeilLog2(upper - lower);
    if lower < 0 {
      NegHom(-lower);
    }
    if Pow2(m) - upper - 1 < 0 {
      NegHom(-(Pow2(m) - upper - 1));
    }
    assert Pow2(0) == 1;
  }

  /** The bounds are refused whenever their distance is a power of two; apart from that they must lie in the middle of
      the field, with room for the next power of two. */
  lemma PrepareExact(lower: int, upper: int)
    ensures Prepare(lower, upper).Some? <==>
            && P > 1 && TruncDiv(2 - P, 2) < lower < upper < TruncDiv(P - 2, 2)
            && (forall e: nat :: Pow2(e) != upper - lower)
            && exists m: nat :: upper - lower <= Pow2(m) < TruncDiv(P - 2, 2)
  {
    hide Pow2, CeilLog2, TruncDiv, IsPrime;
    if P > 1 && TruncDiv(2 - P, 2) < lower < upper < TruncDiv(P - 2, 2) {
      PowerAbove(upper - lower, TruncDiv(P - 2, 2));
    }
  }

  lemma PowerAbove(n: nat, top: int)
    requires n > 0
    ensures n < Pow2(CeilLog2(n)) < top <==> (forall e: nat :: Pow2(e) != n) && exists m: nat :: n <= Pow2(m) < top
  {
    hide Pow2, CeilLog2;
    forall e: nat | n <= Pow2(e) ensures Pow2(CeilLog2(n)) <= Pow2(e) {
      LeastPower(n, e);
    }
    assert n <= Pow2(CeilLog2(n));
  }

  lemma LeastPower(n: nat, e: nat)
    requires 0 < n <= Pow2(e)
    ensures Pow2(CeilLog2(n)) <= Pow2(e)
  {
    hide Pow2, CeilLog2;
    var m := CeilLog2(n);
    if e < m {
      Pow2Monotone(e, m - 1);
    } else {
      Pow2Monotone(m, e);
    }
  }

  /** With m, a, c prepared: both shifted values are below 2^m exactly when the element is in [lower, upper]. */
  lemma SignedRangeExact(v: Fp, lower: int, upper: int)
    requires Prepare(lower, upper).Some?
    ensures var (m, a, c) := Prepare(lower, upper).value;
            InRange(FP.Sub(v, a), 0, Pow2(m) - 1) && InRange(FP.add(v, c), 0, Pow2(m) - 1) <==> InRange(v, lower, upper)
  {
    PrepareMeans(lower, upper);
    var (m, a, c) := Prepare(lower, upper).value;
    var b := Pow2(m);
    ShiftedValues(v, lower, b - upper - 1);
    if InRange(v, lower, upper) {
      SignedRangeComplete(v, lower, upper, b);
    }
    if InRange(ToFp(v - lower), 0, b - 1) && InRange(ToFp(v + (b - upper - 1)), 0, b - 1) {
      SignedRangeSound(v, lower, upper, b);
    }
  }

  lemma ShiftedValues(v: Fp, x: int, y: int)
    ensures FP.Sub(v, ToFp(x)) == ToFp(v - x) && FP.add(v, ToFp(y)) == ToFp(v + y)
  {
    Canonical(v);
    SubHom(v, x);
    AddHom(v, y);
  }

  lemma SignedRangeComplete(v: Fp, lower: int, upper: int, b: nat)
    requires upper - lower < b && InRange(v, lower, upper)
    ensures InRange(ToFp(v - lower), 0, b - 1) && InRange(ToFp(v + (b - upper - 1)), 0, b - 1)
  {
    var z :| lower <= z <= upper && v == ToFp(z);
    Canonical(v);
    SubHom(v, lower);
    SubHom(z, lower);
    AddHom(v, b - upper - 1);
    AddHom(z, b - upper - 1);
    assert ToFp(v - lower) == ToFp(z - lower);
    assert ToFp(v + (b - upper - 1)) == ToFp(z + (b - upper - 1));
  }

  lemma NoWrap(q: int, q': int, p: int, v: int, lower: int, upper: int, b: int, s: int, t: int)
    requires v - lower == s + q * p && v + (b - upper - 1) == t + q' * p
    requires 0 <= s < b && 0 <= t < b && lower < upper && upper - lower < b && 2 * b < p
    ensures s <= upper - lower
  {
    var d := q' - q;
    assert d * p == q' * p - q * p;
    MultipleIsLarge(d, p);
  }

  lemma SignedRangeSound(v: Fp, lower: int, upper: int, b: nat)
    requires lower < upper && upper - lower < b && 2 * b < P
    requires InRange(ToFp(v - lower), 0, b - 1) && InRange(ToFp(v + (b - upper - 1)), 0, b - 1)
    ensures InRange(v, lower, upper)
  {
    var s :| 0 <= s <= b - 1 && ToFp(v - lower) == ToFp(s);
    var t :| 0 <= t <= b - 1 && ToFp(v + (b - upper - 1)) == ToFp(t);
    var q := Quotient(v - lower, s);
    var q' := Quotient(v + (b - upper - 1), t);
    // both s and t describe v, and everything in sight is smaller than P
    NoWrap(q, q', P, v, lower, upper, b, s, t);
    Congruent(v, lower + s, q);
    Canonical(v);
  }

  /** The whole range proof: commitments that make every checked value vanish exist exactly when the
      element represents an integer in [lower, upper]. */
  lemma RangeProofExact(v: Fp, lower: int, upper: int, size: nat)
    requires size > 0 && Prepare(lower, upper).Some?
    ensures var (m, a, c) := Prepare(lower, upper).value;
            m > 0 &&
            ((exists low, high :: ChunkedChecksVanish(FP.Sub(v, a), m, size, low)
                && ChunkedChecksVanish(FP.add(v, c), m, size, high))
             <==> InRange(v, lower, upper))
  {
    PrepareMeans(lower, upper);
    var (m, a, c) := Prepare(lower, upper).value;
    ChunkedExact(FP.Sub(v, a), m, size);
    ChunkedExact(FP.add(v, c), m, size);
    SignedRangeExact(v, lower, upper);
    if InRange(v, lower, upper) {
      var low :| ChunkedChecksVanish(FP.Sub(v, a), m, size, low);
      var high :| ChunkedChecksVanish(FP.add(v, c), m, size, high);
    }
  }

  // ---- the checks as the parties run them ----

  method ProverRangeStep<F(!new, ==)>(mp: HDMacProver<F>, acc: HDMacProver<F>, cst: F, n: nat)
    requires mp.Valid() && acc.Valid() && mp != acc && acc.r == mp.r && n >= 1 && cst == FromNat(mp.r, n)
    requires acc.Full() == RangePoly(mp.r, mp.Full(), n)
    modifies acc
    ensures acc.Valid() && acc.Full() == RangePoly(mp.r, mp.Full(), n + 1)
  {
    var t := new HDMacProver.Clone(mp);
    t.SubAssignConstant(cst);
    acc.MulAssign(t);
  }

  method ProverRangeProduct<F(!new, ==)>(mp: HDMacProver<F>, n: nat) returns (acc: HDMacProver<F>)
    requires mp.Valid() && n >= 1
    ensures fresh(acc) && acc.Valid() && acc.r == mp.r && acc.Full() == RangePoly(mp.r, mp.Full(), n)
  {
    acc := new HDMacProver.Clone(mp);
    var cst := mp.r.zero;
    for i := 1 to n
      invariant fresh(acc) && acc.Valid() && acc.r == mp.r && acc.Full() == RangePoly(mp.r, mp.Full(), i)
      invariant cst == FromNat(mp.r, i - 1)
    {
      cst := mp.r.add(cst, mp.r.one);
      ProverRangeStep(mp, acc, cst, i);
    }
  }

  method ProverCheckPow2Range<F(!new, ==)>(qs: QSStateProver<F>, bits: nat, mp: HDMacProver<F>)
    requires qs.Valid() && mp.Valid() && mp != qs.state && mp.r == qs.r
    requires bits > 0 && mp.qsDegree == 1
    requires Value(RangePoly(qs.r, mp.Full(), Pow2(bits))) == qs.r.zero
    modifies qs, qs.state
    ensures qs.Valid() && qs.state == old(qs.state)
    ensures qs.checked == old(qs.checked) + [RangePoly(qs.r, mp.Full(), Pow2(bits))]
  {
    var acc := ProverRangeProduct(mp, Pow2(bits));
    qs.CheckZero(acc);
  }

  method VerifierRangeStep<F(!new, ==)>(mv: HDMacVerifier<F>, acc: HDMacVerifier<F>, delta: F, cst: F, n: nat)
    requires mv.Valid() && acc.Valid() && mv != acc && acc.r == mv.r && n >= 1 && cst == FromNat(mv.r, n)
    requires acc.Key() == RangeKey(mv.r, delta, mv.Key(), n)
    modifies acc
    ensures acc.Valid() && acc.Key() == RangeKey(mv.r, delta, mv.Key(), n + 1)
  {
    var t := new HDMacVerifier.Clone(mv);
    t.SubAssignConstant(delta, cst);
    acc.MulAssign(t);
  }

  method VerifierRangeProduct<F(!new, ==)>(mv: HDMacVerifier<F>, delta: F, n: nat) returns (acc: HDMacVerifier<F>)
    requires mv.Valid() && n >= 1
    ensures fresh(acc) && acc.Valid() && acc.r == mv.r && acc.Key() == RangeKey(mv.r, delta, mv.Key(), n)
  {
    acc := new HDMacVerifier.Clone(mv);
    var cst := mv.r.zero;
    for i := 1 to n
      invariant fresh(acc) && acc.Valid() && acc.r == mv.r && acc.Key() == RangeKey(mv.r, delta, mv.Key(), i)
      invariant cst == FromNat(mv.r, i - 1)
    {
      cst := mv.r.add(cst, mv.r.one);
      VerifierRangeStep(mv, acc, delta, cst, i);
    }
  }

  method VerifierCheckPow2Range<F(!new, ==)>(qs: QSStateVerifier<F>, bits: nat, mv: HDMacVerifier<F>)
    requires qs.Valid() && mv.Valid() && mv != qs.state && mv.r == qs.r
    modifies qs, qs.state
    ensures qs.Valid() && qs.state == old(qs.state)
    ensures qs.checked == old(qs.checked) + [RangeKey(qs.r, qs.delta, mv.Key(), Pow2(bits))]
  {
    var acc := VerifierRangeProduct(mv, qs.delta, Pow2(bits));
    qs.CheckZero(acc);
  }

  /** The recomposition check for one value and its chunks. */
  function RecombinePoly(c: seq<Fp>, chunks: seq<MacProver<Fp>>, size: nat): (d: seq<Fp>)
    requires c != []
    ensures d != []
  {
    if chunks == [] then c
    else
      var n := |chunks| - 1;
      HdSub(FP, RecombinePoly(c, chunks[..n], size), ScaleSeq(FP, ToFp(Pow2(Times(n, size))), FromMac(FP, chunks[n])))
  }

  function RecombineKey(delta: Fp, k: HdKey<Fp>, chunks: seq<MacVerifier<Fp>>, size: nat): HdKey<Fp> {
    if chunks == [] then k
    else
      var n := |chunks| - 1;
      KeySub(FP, delta, RecombineKey(delta, k, chunks[..n], size),
             KeyScale(FP, ToFp(Pow2(Times(n, size))), KeyFromMac(FP, chunks[n])))
  }

  lemma {:induction false} RecombineAuth(delta: Fp, c: seq<Fp>, k: HdKey<Fp>, ps: seq<MacProver<Fp>>,
                                         vs: seq<MacVerifier<Fp>>, size: nat)
    requires HdAuth(FP, delta, c, k) && AuthAll(FP, delta, ps, vs)
    ensures HdAuth(FP, delta, RecombinePoly(c, ps, size), RecombineKey(delta, k, vs, size))
    ensures RecombineKey(delta, k, vs, size).degree == k.degree
    ensures Value(RecombinePoly(c, ps, size)) == Recombined(Value(c), Values(ps), size)
  {
    if ps != [] {
      var n := |ps| - 1;
      FpIsRing();
      RecombineAuth(delta, c, k, ps[..n], vs[..n], size);
      assert Values(ps)[..n] == Values(ps[..n]);
      var w := ToFp(Pow2(Times(n, size)));
      FromMacAuth(FP, delta, ps[n], vs[n]);
      HdScaleAuth(FP, delta, w, FromMac(FP, ps[n]), KeyFromMac(FP, vs[n]));
      HdSubAuth(FP, delta, RecombinePoly(c, ps[..n], size), ScaleSeq(FP, w, FromMac(FP, ps[n])),
                RecombineKey(delta, k, vs[..n], size), KeyScale(FP, w, KeyFromMac(FP, vs[n])));
    }
  }

  method ProverRecombineStep(acc: HDMacProver<Fp>, w: Fp, chunk: MacProver<Fp>)
    requires acc.Valid() && acc.r == FP
    modifies acc
    ensures acc.Valid() && acc.Full() == HdSub(FP, old(acc.Full()), ScaleSeq(FP, w, FromMac(FP, chunk)))
  {
    var t := new HDMacProver.From(FP, chunk);
    t.MulAssignConstant(w);
    acc.SubAssign(t);
  }

  method VerifierRecombineStep(acc: HDMacVerifier<Fp>, delta: Fp, w: Fp, chunk: MacVerifier<Fp>)
    requires acc.Valid() && acc.r == FP
    modifies acc
    ensures acc.Valid() && acc.Key() == KeySub(FP, delta, old(acc.Key()), KeyScale(FP, w, KeyFromMac(FP, chunk)))
  {
    var t := new HDMacVerifier.From(FP, chunk);
    t.MulAssignConstant(w);
    acc.SubAssign(delta, t);
  }

  method ProverRecombine(mp: HDMacProver<Fp>, chunks: seq<MacProver<Fp>>, size: nat) returns (acc: HDMacProver<Fp>)
    requires mp.Valid() && mp.r == FP
    ensures fresh(acc) && acc.Valid() && acc.r == FP && acc.Full() == RecombinePoly(mp.Full(), chunks, size)
  {
    acc := new HDMacProver.Clone(mp);
    for i := 0 to |chunks|
      invariant fresh(acc) && acc.Valid() && acc.r == FP && acc.Full() == RecombinePoly(mp.Full(), chunks[..i], size)
    {
      assert chunks[..i + 1][..i] == chunks[..i];
      ProverRecombineStep(acc, ToFp(Pow2(Times(i, size))), chunks[i]);
    }
    assert chunks[..|chunks|] == chunks;
  }

  method VerifierRecombine(mv: HDMacVerifier<Fp>, delta: Fp, chunks: seq<MacVerifier<Fp>>, size: nat)
    returns (acc: HDMacVerifier<Fp>)
    requires mv.Valid() && mv.r == FP
    ensures fresh(acc) && acc.Valid() && acc.r == FP && acc.Key() == RecombineKey(delta, mv.Key(), chunks, size)
  {
    acc := new HDMacVerifier.Clone(mv);
    for i := 0 to |chunks|
      invariant fresh(acc) && acc.Valid() && acc.r == FP
      invariant acc.Key() == RecombineKey(delta, mv.Key(), chunks[..i], size)
    {
      assert chunks[..i + 1][..i] == chunks[..i];
      VerifierRecombineStep(acc, delta, ToFp(Pow2(Times(i, size))), chunks[i]);
    }
    assert chunks[..|chunks|] == chunks;
  }

  lemma ChunkAuth(delta: Fp, p: MacProver<Fp>, v: MacVerifier<Fp>, n: nat)
    requires Auth(FP, delta, p, v) && n >= 1
    ensures HdAuth(FP, delta, RangePoly(FP, FromMac(FP, p), n), RangeKey(FP, delta, KeyFromMac(FP, v), n))
    ensures Value(RangePoly(FP, FromMac(FP, p), n)) == RangeValue(FP, p.x, n)
  {
    FpIsRing();
    FromMacAuth(FP, delta, p, v);
    RangeAuth(FP, delta, FromMac(FP, p), KeyFromMac(FP, v), n);
  }

  method ProverCheckRecombine(qs: QSStateProver<Fp>, mp: HDMacProver<Fp>, size: nat, chunks: seq<MacProver<Fp>>)
    requires qs.Valid() && mp.Valid() && mp != qs.state && mp.r == qs.r == FP
    requires Value(RecombinePoly(mp.Full(), chunks, size)) == 0
    modifies qs, qs.state
    ensures qs.Valid() && qs.state == old(qs.state)
    ensures qs.checked == old(qs.checked) + [RecombinePoly(mp.Full(), chunks, size)]
  {
    hide RecombinePoly, QsState;
    var acc := ProverRecombine(mp, chunks, size);
    qs.CheckZero(acc);
  }

  method VerifierCheckRecombine(qs: QSStateVerifier<Fp>, mv: HDMacVerifier<Fp>, size: nat, chunks: seq<MacVerifier<Fp>>)
    requires qs.Valid() && mv.Valid() && mv != qs.state && mv.r == qs.r == FP
    modifies qs, qs.state
    ensures qs.Valid() && qs.state == old(qs.state)
    ensures qs.checked == old(qs.checked) + [RecombineKey(qs.delta, mv.Key(), chunks, size)]
  {
    hide QsKey, RecombineKey;
    var acc := VerifierRecombine(mv, qs.delta, chunks, size);
    qs.CheckZero(acc);
  }
}
