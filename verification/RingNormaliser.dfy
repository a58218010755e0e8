/** Proofs of ring identities by expanding both sides into signed monomials. */
module RingNormaliser {
  import opened Rings

  datatype Ex = V(i: nat) | Zero | One | Plus(l: Ex, r: Ex) | Times(l: Ex, r: Ex) | Minus(e: Ex)
  datatype Mono = MNil | MCons(v: nat, rest: Mono)
  datatype Monos = Nil | Cons(m: Mono, rest: Monos)

  function Less(a: Ex, b: Ex): Ex {
    Plus(a, Minus(b))
  }

  ghost function ExValue<F>(r: Ring<F>, env: seq<F>, e: Ex): F
    decreases e
  {
    match e
    case V(i) => if i < |env| then env[i] else r.zero
    case Zero => r.zero
    case One => r.one
    case Plus(a, b) => r.add(ExValue(r, env, a), ExValue(r, env, b))
    case Times(a, b) => r.mul(ExValue(r, env, a), ExValue(r, env, b))
    case Minus(a) => r.neg(ExValue(r, env, a))
  }

  ghost function ExMono<F>(r: Ring<F>, env: seq<F>, m: Mono): F
    decreases m
  {
    match m
    case MNil => r.one
    case MCons(v, rest) => r.mul(ExValue(r, env, V(v)), ExMono(r, env, rest))
  }

  ghost function ExMonos<F>(r: Ring<F>, env: seq<F>, s: Monos): F
    decreases s
  {
    match s
    case Nil => r.zero
    case Cons(m, rest) => r.add(ExMono(r, env, m), ExMonos(r, env, rest))
  }

  function InsertVar(v: nat, m: Mono): Mono
    decreases m
  {
    match m
    case MNil => MCons(v, MNil)
    case MCons(w, rest) => if v <= w then MCons(v, m) else MCons(w, InsertVar(v, rest))
  }

  function MonoMul(a: Mono, b: Mono): Mono
    decreases a
  {
    match a
    case MNil => b
    case MCons(v, rest) => InsertVar(v, MonoMul(rest, b))
  }

  function AppendMonos(a: Monos, b: Monos): Monos
    decreases a
  {
    match a
    case Nil => b
    case Cons(m, rest) => Cons(m, AppendMonos(rest, b))
  }

  function ScaleMonos(m: Mono, b: Monos): Monos
    decreases b
  {
    match b
    case Nil => Nil
    case Cons(n, rest) => Cons(MonoMul(m, n), ScaleMonos(m, rest))
  }

  function MulMonos(a: Monos, b: Monos): Monos
    decreases a
  {
    match a
    case Nil => Nil
    case Cons(m, rest) => AppendMonos(ScaleMonos(m, b), MulMonos(rest, b))
  }

  /** The monomials with a positive sign of the expansion of e. */
  function Positive(e: Ex): Monos
    decreases e
  {
    match e
    case V(i) => Cons(MCons(i, MNil), Nil)
    case Zero => Nil
    case One => Cons(MNil, Nil)
    case Plus(a, b) => AppendMonos(Positive(a), Positive(b))
    case Minus(a) => Negative(a)
    case Times(a, b) => AppendMonos(MulMonos(Positive(a), Positive(b)), MulMonos(Negative(a), Negative(b)))
  }

  /** The monomials with a negative sign of the expansion of e. */
  function Negative(e: Ex): Monos
    decreases e
  {
    match e
    case V(i) => Nil
    case Zero => Nil
    case One => Nil
    case Plus(a, b) => AppendMonos(Negative(a), Negative(b))
    case Minus(a) => Positive(a)
    case Times(a, b) => AppendMonos(MulMonos(Positive(a), Negative(b)), MulMonos(Negative(a), Positive(b)))
  }

  predicate AtMost(a: Mono, b: Mono)
    decreases a
  {
    match a
    case MNil => true
    case MCons(v, p) =>
      match b
      case MNil => false
      case MCons(w, q) => v < w || (v == w && AtMost(p, q))
  }

  function InsertMono(m: Mono, b: Monos): Monos
    decreases b
  {
    match b
    case Nil => Cons(m, Nil)
    case Cons(n, rest) => if AtMost(m, n) then Cons(m, b) else Cons(n, InsertMono(m, rest))
  }

  function SortMonos(a: Monos): Monos
    decreases a
  {
    match a
    case Nil => Nil
    case Cons(m, rest) => InsertMono(m, SortMonos(rest))
  }

  /** The two expressions have the same expansion into signed monomials. */
  predicate Same(a: Ex, b: Ex) {
    SortMonos(AppendMonos(Positive(a), Negative(b))) == SortMonos(AppendMonos(Negative(a), Positive(b)))
  }

  lemma {:induction false} ExInsertVar<F(!new)>(r: Ring<F>, env: seq<F>, v: nat, m: Mono)
    requires IsRing(r)
    ensures ExMono(r, env, InsertVar(v, m)) == r.mul(ExValue(r, env, V(v)), ExMono(r, env, m))
  {
    match m
    case MNil =>
    case MCons(w, rest) =>
      ExInsertVar(r, env, v, rest);
      var x, y, z := ExValue(r, env, V(v)), ExValue(r, env, V(w)), ExMono(r, env, rest);
      MulAssoc(r, x, y, z);
      MulComm(r, x, y);
      MulAssoc(r, y, x, z);
  }

  lemma {:induction false} ExMonoMul<F(!new)>(r: Ring<F>, env: seq<F>, a: Mono, b: Mono)
    requires IsRing(r)
    ensures ExMono(r, env, MonoMul(a, b)) == r.mul(ExMono(r, env, a), ExMono(r, env, b))
  {
    match a
    case MNil => MulOne(r, ExMono(r, env, b));
    case MCons(v, rest) =>
      ExMonoMul(r, env, rest, b);
      ExInsertVar(r, env, v, MonoMul(rest, b));
      MulAssoc(r, ExValue(r, env, V(v)), ExMono(r, env, rest), ExMono(r, env, b));
  }

  lemma {:induction false} ExAppend<F(!new)>(r: Ring<F>, env: seq<F>, a: Monos, b: Monos)
    requires IsRing(r)
    ensures ExMonos(r, env, AppendMonos(a, b)) == r.add(ExMonos(r, env, a), ExMonos(r, env, b))
  {
    match a
    case Nil => AddZero(r, ExMonos(r, env, b));
    case Cons(m, rest) =>
      ExAppend(r, env, rest, b);
      AddAssoc(r, ExMono(r, env, m), ExMonos(r, env, rest), ExMonos(r, env, b));
  }

  lemma {:induction false} ExScale<F(!new)>(r: Ring<F>, env: seq<F>, m: Mono, b: Monos)
    requires IsRing(r)
    ensures ExMonos(r, env, ScaleMonos(m, b)) == r.mul(ExMono(r, env, m), ExMonos(r, env, b))
  {
    match b
    case Nil => MulZero(r, ExMono(r, env, m));
    case Cons(n, rest) =>
      ExScale(r, env, m, rest);
      ExMonoMul(r, env, m, n);
      Distribute(r, ExMono(r, env, m), ExMono(r, env, n), ExMonos(r, env, rest));
  }

  lemma {:induction false} ExMulMonos<F(!new)>(r: Ring<F>, env: seq<F>, a: Monos, b: Monos)
    requires IsRing(r)
    ensures ExMonos(r, env, MulMonos(a, b)) == r.mul(ExMonos(r, env, a), ExMonos(r, env, b))
  {
    match a
    case Nil => MulZero(r, ExMonos(r, env, b));
    case Cons(m, rest) =>
      ExMulMonos(r, env, rest, b);
      ExScale(r, env, m, b);
      ExAppend(r, env, ScaleMonos(m, b), MulMonos(rest, b));
      Distribute(r, ExMonos(r, env, b), ExMono(r, env, m), ExMonos(r, env, rest));
  }

  lemma {:induction false} ExExpansion<F(!new)>(r: Ring<F>, env: seq<F>, e: Ex)
    requires IsRing(r)
    ensures ExValue(r, env, e) == r.Sub(ExMonos(r, env, Positive(e)), ExMonos(r, env, Negative(e)))
    decreases e
  {
    NegZero(r);
    AddZero(r, r.zero);
    match e
    case V(i) =>
      var x := ExValue(r, env, e);
      MulOne(r, x);
      AddZero(r, x);
      assert ExMono(r, env, MCons(i, MNil)) == r.mul(x, ExMono(r, env, MNil));
    case Zero =>
    case One => AddZero(r, r.one);
    case Plus(a, b) =>
      ExExpansion(r, env, a);
      ExExpansion(r, env, b);
      ExAppend(r, env, Positive(a), Positive(b));
      ExAppend(r, env, Negative(a), Negative(b));
      SignedSum(r, ExMonos(r, env, Positive(a)), ExMonos(r, env, Negative(a)),
                ExMonos(r, env, Positive(b)), ExMonos(r, env, Negative(b)));
    case Minus(a) =>
      ExExpansion(r, env, a);
      SignedNeg(r, ExMonos(r, env, Positive(a)), ExMonos(r, env, Negative(a)));
    case Times(a, b) =>
      ExExpansion(r, env, a);
      ExExpansion(r, env, b);
      ExTimes(r, env, a, b);
  }

  lemma ExTimes<F(!new)>(r: Ring<F>, env: seq<F>, a: Ex, b: Ex)
    requires IsRing(r)
    ensures r.mul(r.Sub(ExMonos(r, env, Positive(a)), ExMonos(r, env, Negative(a))),
                  r.Sub(ExMonos(r, env, Positive(b)), ExMonos(r, env, Negative(b))))
         == r.Sub(ExMonos(r, env, Positive(Times(a, b))), ExMonos(r, env, Negative(Times(a, b))))
  {
    var ap, an, bp, bn := Positive(a), Negative(a), Positive(b), Negative(b);
    SignedProduct(r, ExMonos(r, env, ap), ExMonos(r, env, an), ExMonos(r, env, bp), ExMonos(r, env, bn));
    ExMulMonos(r, env, ap, bp);
    ExMulMonos(r, env, an, bn);
    ExMulMonos(r, env, ap, bn);
    ExMulMonos(r, env, an, bp);
    ExAppend(r, env, MulMonos(ap, bp), MulMonos(an, bn));
    ExAppend(r, env, MulMonos(ap, bn), MulMonos(an, bp));
  }

  lemma {:induction false} ExInsertMono<F(!new)>(r: Ring<F>, env: seq<F>, m: Mono, b: Monos)
    requires IsRing(r)
    ensures ExMonos(r, env, InsertMono(m, b)) == r.add(ExMono(r, env, m), ExMonos(r, env, b))
  {
    match b
    case Nil =>
    case Cons(n, rest) =>
      ExInsertMono(r, env, m, rest);
      var x, y, z := ExMono(r, env, m), ExMono(r, env, n), ExMonos(r, env, rest);
      AddAssoc(r, x, y, z);
      AddComm(r, x, y);
      AddAssoc(r, y, x, z);
  }

  lemma {:induction false} ExSort<F(!new)>(r: Ring<F>, env: seq<F>, a: Monos)
    requires IsRing(r)
    ensures ExMonos(r, env, SortMonos(a)) == ExMonos(r, env, a)
  {
    match a
    case Nil =>
    case Cons(m, rest) =>
      ExSort(r, env, rest);
      ExInsertMono(r, env, m, SortMonos(rest));
  }

  /** Expressions with the same expansion are equal in every commutative ring. */
  lemma Identity<F(!new)>(r: Ring<F>, env: seq<F>, a: Ex, b: Ex)
    requires IsRing(r)
    requires Same(a, b)
    ensures ExValue(r, env, a) == ExValue(r, env, b)
  {
    ExExpansion(r, env, a);
    ExExpansion(r, env, b);
    ExSort(r, env, AppendMonos(Positive(a), Negative(b)));
    ExSort(r, env, AppendMonos(Negative(a), Positive(b)));
    ExAppend(r, env, Positive(a), Negative(b));
    ExAppend(r, env, Negative(a), Positive(b));
    var ap, an := ExMonos(r, env, Positive(a)), ExMonos(r, env, Negative(a));
    var bp, bn := ExMonos(r, env, Positive(b)), ExMonos(r, env, Negative(b));
    // ap + bn == an + bp, so (ap - an) - (bp - bn) == 0
    SignedNeg(r, bp, bn);
    SignedSum(r, ap, an, bn, bp);
    SubIsZero(r, r.add(ap, bn), r.add(an, bp));
    SubIsZero(r, r.Sub(ap, an), r.Sub(bp, bn));
  }
}
