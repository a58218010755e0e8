/** Commutative rings, given as a record of operations (the role the trait `FiniteField` plays in the
    program), together with a small normaliser that proves ring identities.

    The laws are stated behind marker terms, so that a law is only used where a lemma asks for it. */
module Rings {

  datatype Ring<!F> = Ring(zero: F, one: F, add: (F, F) -> F, neg: F -> F, mul: (F, F) -> F) {
    function Sub(a: F, b: F): F {
      add(a, neg(b))
    }
  }

  ghost predicate At<A>(a: A) {
    true
  }

  ghost predicate IsRing<F(!new)>(r: Ring<F>) {
    && (forall a, b {:trigger At((a, b))} :: r.add(a, b) == r.add(b, a) && r.mul(a, b) == r.mul(b, a))
    && (forall a, b, c {:trigger At((a, b, c))} ::
          && r.add(r.add(a, b), c) == r.add(a, r.add(b, c))
          && r.mul(r.mul(a, b), c) == r.mul(a, r.mul(b, c))
          && r.mul(a, r.add(b, c)) == r.add(r.mul(a, b), r.mul(a, c)))
    && (forall a {:trigger At(a)} ::
          r.add(r.zero, a) == a && r.add(a, r.neg(a)) == r.zero && r.mul(r.one, a) == a)
  }

  /** No zero divisors, and not the zero ring. */
  ghost predicate IsDomain<F(!new)>(r: Ring<F>) {
    && IsRing(r)
    && r.zero != r.one
    && (forall a, b {:trigger At((a, b))} :: r.mul(a, b) == r.zero ==> a == r.zero || b == r.zero)
  }

  /** Characteristic two: the extension fields of GF(2) in which bits are authenticated. */
  ghost predicate IsBinary<F(!new)>(r: Ring<F>) {
    IsRing(r) && r.zero != r.one && r.add(r.one, r.one) == r.zero
  }

  /** GF(2) itself. */
  const GF2: Ring<bool> := Ring(false, true, (a, b) => a != b, a => a, (a, b) => a && b)

  lemma Gf2IsBinary()
    ensures IsBinary(GF2) && IsDomain(GF2)
  {
  }

  lemma AddComm<F(!new)>(r: Ring<F>, a: F, b: F)
    requires IsRing(r)
    ensures r.add(a, b) == r.add(b, a)
  {
    assert At((a, b));
  }

  lemma AddAssoc<F(!new)>(r: Ring<F>, a: F, b: F, c: F)
    requires IsRing(r)
    ensures r.add(r.add(a, b), c) == r.add(a, r.add(b, c))
  {
    assert At((a, b, c));
  }

  lemma AddZero<F(!new)>(r: Ring<F>, a: F)
    requires IsRing(r)
    ensures r.add(r.zero, a) == a && r.add(a, r.zero) == a
  {
    assert At(a) && At((a, r.zero));
  }

  lemma AddNeg<F(!new)>(r: Ring<F>, a: F)
    requires IsRing(r)
    ensures r.add(a, r.neg(a)) == r.zero && r.add(r.neg(a), a) == r.zero
  {
    assert At(a) && At((a, r.neg(a)));
  }

  lemma MulComm<F(!new)>(r: Ring<F>, a: F, b: F)
    requires IsRing(r)
    ensures r.mul(a, b) == r.mul(b, a)
  {
    assert At((a, b));
  }

  lemma MulAssoc<F(!new)>(r: Ring<F>, a: F, b: F, c: F)
    requires IsRing(r)
    ensures r.mul(r.mul(a, b), c) == r.mul(a, r.mul(b, c))
  {
    assert At((a, b, c));
  }

  lemma MulOne<F(!new)>(r: Ring<F>, a: F)
    requires IsRing(r)
    ensures r.mul(r.one, a) == a && r.mul(a, r.one) == a
  {
    assert At(a) && At((a, r.one));
  }

  lemma Distribute<F(!new)>(r: Ring<F>, a: F, b: F, c: F)
    requires IsRing(r)
    ensures r.mul(a, r.add(b, c)) == r.add(r.mul(a, b), r.mul(a, c))
    ensures r.mul(r.add(b, c), a) == r.add(r.mul(b, a), r.mul(c, a))
  {
    assert At((a, b, c));
    MulComm(r, a, r.add(b, c));
    MulComm(r, a, b);
    MulComm(r, a, c);
  }

  lemma CancelAdd<F(!new)>(r: Ring<F>, a: F, b: F, c: F)
    requires IsRing(r)
    requires r.add(a, b) == r.add(a, c)
    ensures b == c
  {
    AddAssoc(r, r.neg(a), a, b);
    AddAssoc(r, r.neg(a), a, c);
    AddNeg(r, a);
    AddZero(r, b);
    AddZero(r, c);
  }

  lemma MulZero<F(!new)>(r: Ring<F>, a: F)
    requires IsRing(r)
    ensures r.mul(a, r.zero) == r.zero && r.mul(r.zero, a) == r.zero
  {
    var z := r.mul(a, r.zero);
    AddZero(r, r.zero);
    Distribute(r, a, r.zero, r.zero);
    AddZero(r, z);
    CancelAdd(r, z, z, r.zero);
    MulComm(r, a, r.zero);
  }

  lemma MulNeg<F(!new)>(r: Ring<F>, a: F, b: F)
    requires IsRing(r)
    ensures r.mul(a, r.neg(b)) == r.neg(r.mul(a, b))
    ensures r.mul(r.neg(a), b) == r.neg(r.mul(a, b))
  {
    MulNegRight(r, a, b);
    MulNegRight(r, b, a);
    MulComm(r, a, b);
    MulComm(r, r.neg(a), b);
  }

  lemma MulNegRight<F(!new)>(r: Ring<F>, a: F, b: F)
    requires IsRing(r)
    ensures r.mul(a, r.neg(b)) == r.neg(r.mul(a, b))
  {
    Distribute(r, a, b, r.neg(b));
    AddNeg(r, b);
    MulZero(r, a);
    AddNeg(r, r.mul(a, b));
    CancelAdd(r, r.mul(a, b), r.mul(a, r.neg(b)), r.neg(r.mul(a, b)));
  }

  lemma NegAdd<F(!new)>(r: Ring<F>, a: F, b: F)
    requires IsRing(r)
    ensures r.neg(r.add(a, b)) == r.add(r.neg(a), r.neg(b))
  {
    AddNeg(r, r.add(a, b));
    AddSwap(r, a, b, r.neg(a), r.neg(b));
    AddNeg(r, a);
    AddNeg(r, b);
    AddZero(r, r.zero);
    CancelAdd(r, r.add(a, b), r.neg(r.add(a, b)), r.add(r.neg(a), r.neg(b)));
  }

  lemma NegNeg<F(!new)>(r: Ring<F>, a: F)
    requires IsRing(r)
    ensures r.neg(r.neg(a)) == a
  {
    AddNeg(r, a);
    AddNeg(r, r.neg(a));
    CancelAdd(r, r.neg(a), r.neg(r.neg(a)), a);
  }

  lemma NegZero<F(!new)>(r: Ring<F>)
    requires IsRing(r)
    ensures r.neg(r.zero) == r.zero
  {
    AddNeg(r, r.zero);
    AddZero(r, r.neg(r.zero));
  }

  /** (a + b) + (c + d) = (a + c) + (b + d) */
  lemma AddSwap<F(!new)>(r: Ring<F>, a: F, b: F, c: F, d: F)
    requires IsRing(r)
    ensures r.add(r.add(a, b), r.add(c, d)) == r.add(r.add(a, c), r.add(b, d))
  {
    AddAssoc(r, a, b, r.add(c, d));
    AddAssoc(r, b, c, d);
    AddComm(r, b, c);
    AddAssoc(r, c, b, d);
    AddAssoc(r, a, c, r.add(b, d));
  }

  lemma SubAdd<F(!new)>(r: Ring<F>, a: F, b: F)
    requires IsRing(r)
    ensures r.add(r.Sub(a, b), b) == a
  {
    AddAssoc(r, a, r.neg(b), b);
    AddNeg(r, b);
    AddZero(r, a);
  }

  lemma SubIsZero<F(!new)>(r: Ring<F>, a: F, b: F)
    requires IsRing(r)
    ensures r.Sub(a, b) == r.zero <==> a == b
  {
    AddNeg(r, b);
    AddComm(r, a, r.neg(b));
    if r.Sub(a, b) == r.zero {
      AddComm(r, b, r.neg(b));
      CancelAdd(r, r.neg(b), a, b);
    }
  }

  /** (p - n)(q - m) splits into its positive and its negative part. */
  lemma SignedProduct<F(!new)>(r: Ring<F>, p: F, n: F, q: F, m: F)
    requires IsRing(r)
    ensures r.mul(r.Sub(p, n), r.Sub(q, m))
         == r.Sub(r.add(r.mul(p, q), r.mul(n, m)), r.add(r.mul(p, m), r.mul(n, q)))
  {
    Distribute(r, r.Sub(q, m), p, r.neg(n));
    Distribute(r, p, q, r.neg(m));
    Distribute(r, r.neg(n), q, r.neg(m));
    MulNeg(r, p, m);
    MulNeg(r, n, q);
    MulNeg(r, n, r.neg(m));
    MulNeg(r, n, m);
    NegNeg(r, r.mul(n, m));
    AddComm(r, r.neg(r.mul(n, q)), r.mul(n, m));
    AddSwap(r, r.mul(p, q), r.neg(r.mul(p, m)), r.mul(n, m), r.neg(r.mul(n, q)));
    NegAdd(r, r.mul(p, m), r.mul(n, q));
  }

  lemma SignedSum<F(!new)>(r: Ring<F>, p: F, n: F, q: F, m: F)
    requires IsRing(r)
    ensures r.add(r.Sub(p, n), r.Sub(q, m)) == r.Sub(r.add(p, q), r.add(n, m))
  {
    AddSwap(r, p, r.neg(n), q, r.neg(m));
    NegAdd(r, n, m);
  }

  lemma SignedNeg<F(!new)>(r: Ring<F>, p: F, n: F)
    requires IsRing(r)
    ensures r.neg(r.Sub(p, n)) == r.Sub(n, p)
  {
    NegAdd(r, p, r.neg(n));
    NegNeg(r, n);
    AddComm(r, r.neg(p), n);
  }
}
