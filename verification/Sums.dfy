/** Sums, inner products and powers over a ring, in the order in which the program accumulates them. */
module Sums {
  import opened Rings

  ghost function Dot<F>(r: Ring<F>, a: seq<F>, b: seq<F>): F
    requires |a| == |b|
  {
    if a == [] then r.zero
    else var n := |a| - 1; r.add(Dot(r, a[..n], b[..n]), r.mul(a[n], b[n]))
  }

  ghost predicate AllZero<F>(r: Ring<F>, c: seq<F>) {
    forall i :: 0 <= i < |c| ==> c[i] == r.zero
  }

  function Pow<F>(r: Ring<F>, x: F, n: nat): F {
    if n == 0 then r.one else r.mul(Pow(r, x, n - 1), x)
  }

  /** The sum of s[i] * x^(i+1). */
  ghost function PowerSum<F>(r: Ring<F>, x: F, s: seq<F>): F {
    if s == [] then r.zero
    else var n := |s| - 1; r.add(PowerSum(r, x, s[..n]), r.mul(s[n], Pow(r, x, n + 1)))
  }

  lemma PowOne<F(!new)>(r: Ring<F>, x: F)
    requires IsRing(r)
    ensures Pow(r, x, 1) == x
  {
    assert Pow(r, x, 0) == r.one;
    MulOne(r, x);
  }

  /** x * x^n = x^(n+1) */
  lemma PowFront<F(!new)>(r: Ring<F>, x: F, n: nat)
    requires IsRing(r)
    ensures Pow(r, x, n + 1) == r.mul(x, Pow(r, x, n))
  {
    MulComm(r, x, Pow(r, x, n));
  }

  lemma {:induction false} DotZero<F(!new)>(r: Ring<F>, a: seq<F>, b: seq<F>)
    requires IsRing(r) && |a| == |b| && AllZero(r, b)
    ensures Dot(r, a, b) == r.zero
  {
    if a != [] {
      var n := |a| - 1;
      DotZero(r, a[..n], b[..n]);
      MulZero(r, a[n]);
      AddZero(r, r.zero);
    }
  }

  lemma {:induction false} PowerSumZero<F(!new)>(r: Ring<F>, x: F, s: seq<F>)
    requires IsRing(r) && AllZero(r, s)
    ensures PowerSum(r, x, s) == r.zero
  {
    if s != [] {
      var n := |s| - 1;
      PowerSumZero(r, x, s[..n]);
      MulZero(r, Pow(r, x, n + 1));
      AddZero(r, r.zero);
    }
  }

  lemma PowerSumSnoc<F>(r: Ring<F>, x: F, s: seq<F>, a: F)
    ensures PowerSum(r, x, s + [a]) == r.add(PowerSum(r, x, s), r.mul(a, Pow(r, x, |s| + 1)))
  {
    assert (s + [a])[..|s|] == s;
  }
}
