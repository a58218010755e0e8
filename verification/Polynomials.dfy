/** Polynomials as coefficient sequences (constant term first), evaluation, products and root counting. */
module Polynomials {
  import opened Rings
  import opened RingNormaliser
  import opened Sums

  ghost function Eval<F>(r: Ring<F>, c: seq<F>, x: F): F {
    if c == [] then r.zero else r.add(c[0], r.mul(x, Eval(r, c[1..], x)))
  }

  function Zeros<F>(r: Ring<F>, n: nat): seq<F> {
    seq(n, i => r.zero)
  }

  function AddSeq<F>(r: Ring<F>, a: seq<F>, b: seq<F>): seq<F>
    requires |a| == |b|
  {
    seq(|a|, i requires 0 <= i < |a| => r.add(a[i], b[i]))
  }

  function SubSeq<F>(r: Ring<F>, a: seq<F>, b: seq<F>): seq<F>
    requires |a| == |b|
  {
    seq(|a|, i requires 0 <= i < |a| => r.Sub(a[i], b[i]))
  }

  function ScaleSeq<F>(r: Ring<F>, k: F, a: seq<F>): seq<F> {
    seq(|a|, i requires 0 <= i < |a| => r.mul(k, a[i]))
  }

  /** The coefficients of the product. */
  function MulSeq<F>(r: Ring<F>, a: seq<F>, b: seq<F>): (c: seq<F>)
    requires |b| > 0
    ensures |c| == if a == [] then |b| - 1 else |a| + |b| - 1
  {
    if a == [] then Zeros(r, |b| - 1)
    else AddSeq(r, ScaleSeq(r, a[0], b) + Zeros(r, |a| - 1), [r.zero] + MulSeq(r, a[1..], b))
  }

  lemma {:induction false} EvalZeros<F(!new)>(r: Ring<F>, n: nat, x: F)
    requires IsRing(r)
    ensures Eval(r, Zeros(r, n), x) == r.zero
  {
    if n > 0 {
      assert Zeros(r, n)[1..] == Zeros(r, n - 1);
      EvalZeros(r, n - 1, x);
      MulZero(r, x);
      AddZero(r, r.zero);
    }
  }

  lemma {:induction false} EvalAppend<F(!new)>(r: Ring<F>, a: seq<F>, b: seq<F>, x: F)
    requires IsRing(r)
    ensures Eval(r, a + b, x) == r.add(Eval(r, a, x), r.mul(Pow(r, x, |a|), Eval(r, b, x)))
  {
    var e := Eval(r, b, x);
    if a == [] {
      assert a + b == b;
      MulOne(r, e);
      AddZero(r, e);
    } else {
      EvalAppend(r, a[1..], b, x);
      assert (a + b)[1..] == a[1..] + b;
      var p := Pow(r, x, |a| - 1);
      PowFront(r, x, |a| - 1);
      MulAssoc(r, x, p, e);
      Distribute(r, x, Eval(r, a[1..], x), r.mul(p, e));
      AddAssoc(r, a[0], r.mul(x, Eval(r, a[1..], x)), r.mul(r.mul(x, p), e));
    }
  }

  lemma EvalSnoc<F(!new)>(r: Ring<F>, c: seq<F>, a: F, x: F)
    requires IsRing(r)
    ensures Eval(r, c + [a], x) == r.add(Eval(r, c, x), r.mul(Pow(r, x, |c|), a))
  {
    EvalAppend(r, c, [a], x);
    assert Eval(r, [a], x) == r.add(a, r.mul(x, Eval(r, [], x)));
    MulZero(r, x);
    AddZero(r, a);
  }

  /** Zeros in front multiply by a power of x. */
  lemma EvalShift<F(!new)>(r: Ring<F>, n: nat, c: seq<F>, x: F)
    requires IsRing(r)
    ensures Eval(r, Zeros(r, n) + c, x) == r.mul(Pow(r, x, n), Eval(r, c, x))
  {
    EvalAppend(r, Zeros(r, n), c, x);
    EvalZeros(r, n, x);
    AddZero(r, r.mul(Pow(r, x, n), Eval(r, c, x)));
  }

  lemma EvalPadded<F(!new)>(r: Ring<F>, c: seq<F>, n: nat, x: F)
    requires IsRing(r)
    ensures Eval(r, c + Zeros(r, n), x) == Eval(r, c, x)
  {
    EvalAppend(r, c, Zeros(r, n), x);
    EvalZeros(r, n, x);
    MulZero(r, Pow(r, x, |c|));
    AddZero(r, Eval(r, c, x));
  }

  lemma {:induction false} EvalAdd<F(!new)>(r: Ring<F>, a: seq<F>, b: seq<F>, x: F)
    requires IsRing(r) && |a| == |b|
    ensures Eval(r, AddSeq(r, a, b), x) == r.add(Eval(r, a, x), Eval(r, b, x))
  {
    if a == [] {
      AddZero(r, r.zero);
    } else {
      EvalAdd(r, a[1..], b[1..], x);
      assert AddSeq(r, a, b)[1..] == AddSeq(r, a[1..], b[1..]);
      Distribute(r, x, Eval(r, a[1..], x), Eval(r, b[1..], x));
      AddSwap(r, a[0], r.mul(x, Eval(r, a[1..], x)), b[0], r.mul(x, Eval(r, b[1..], x)));
    }
  }

  lemma {:induction false} EvalScale<F(!new)>(r: Ring<F>, k: F, a: seq<F>, x: F)
    requires IsRing(r)
    ensures Eval(r, ScaleSeq(r, k, a), x) == r.mul(k, Eval(r, a, x))
  {
    if a == [] {
      MulZero(r, k);
    } else {
      EvalScale(r, k, a[1..], x);
      assert ScaleSeq(r, k, a)[1..] == ScaleSeq(r, k, a[1..]);
      var e := Eval(r, a[1..], x);
      MulAssoc(r, x, k, e);
      MulAssoc(r, k, x, e);
      MulComm(r, x, k);
      Distribute(r, k, a[0], r.mul(x, e));
    }
  }

  lemma EvalSub<F(!new)>(r: Ring<F>, a: seq<F>, b: seq<F>, x: F)
    requires IsRing(r) && |a| == |b|
    ensures Eval(r, SubSeq(r, a, b), x) == r.Sub(Eval(r, a, x), Eval(r, b, x))
  {
    var nb := ScaleSeq(r, r.neg(r.one), b);
    EvalScale(r, r.neg(r.one), b, x);
    EvalAdd(r, a, nb, x);
    forall i | 0 <= i < |a| ensures SubSeq(r, a, b)[i] == AddSeq(r, a, nb)[i] {
      MulNeg(r, r.one, b[i]);
      MulOne(r, b[i]);
    }
    assert SubSeq(r, a, b) == AddSeq(r, a, nb);
    MulNeg(r, r.one, Eval(r, b, x));
    MulOne(r, Eval(r, b, x));
  }

  lemma {:induction false} EvalMul<F(!new)>(r: Ring<F>, a: seq<F>, b: seq<F>, x: F)
    requires IsRing(r) && |b| > 0
    ensures Eval(r, MulSeq(r, a, b), x) == r.mul(Eval(r, a, x), Eval(r, b, x))
  {
    var e := Eval(r, b, x);
    if a == [] {
      EvalZeros(r, |b| - 1, x);
      MulZero(r, e);
    } else {
      var rest := MulSeq(r, a[1..], b);
      EvalMul(r, a[1..], b, x);
      EvalAdd(r, ScaleSeq(r, a[0], b) + Zeros(r, |a| - 1), [r.zero] + rest, x);
      EvalPadded(r, ScaleSeq(r, a[0], b), |a| - 1, x);
      EvalScale(r, a[0], b, x);
      assert ([r.zero] + rest)[1..] == rest;
      AddZero(r, r.mul(x, Eval(r, rest, x)));
      MulAssoc(r, x, Eval(r, a[1..], x), e);
      Distribute(r, e, a[0], r.mul(x, Eval(r, a[1..], x)));
    }
  }

  /** The leading coefficient of a product is the product of the leading coefficients. */
  lemma {:induction false} MulSeqLast<F(!new)>(r: Ring<F>, a: seq<F>, b: seq<F>)
    requires IsRing(r) && |a| > 0 && |b| > 0
    ensures MulSeq(r, a, b)[|a| + |b| - 2] == r.mul(a[|a| - 1], b[|b| - 1])
  {
    var top := r.mul(a[0], b[|b| - 1]);
    if |a| == 1 {
      assert MulSeq(r, a[1..], b) == Zeros(r, |b| - 1);
      AddZero(r, top);
    } else {
      MulSeqLast(r, a[1..], b);
      AddZero(r, r.mul(a[|a| - 1], b[|b| - 1]));
    }
  }

  /** Zero coefficients at the top of the factors are zero coefficients at the top of the product. */
  lemma {:induction false} MulSeqPadded<F(!new)>(r: Ring<F>, a: seq<F>, m: nat, b: seq<F>, n: nat)
    requires IsRing(r) && |a| > 0 && |b| > 0
    ensures MulSeq(r, a + Zeros(r, m), b + Zeros(r, n)) == MulSeq(r, a, b) + Zeros(r, m + n)
  {
    var a', b' := a + Zeros(r, m), b + Zeros(r, n);
    var t := MulSeq(r, a'[1..], b');
    assert a'[1..] == a[1..] + Zeros(r, m);
    if |a| == 1 {
      MulZerosSeq(r, m, b');
      assert a'[1..] == Zeros(r, m);
      assert MulSeq(r, a[1..], b) == Zeros(r, |b| - 1);
      assert t == MulSeq(r, a[1..], b) + Zeros(r, m + n);
    } else {
      MulSeqPadded(r, a[1..], m, b, n);
    }
    PaddedSum(r, a[0], b, m, n, |a| - 1, MulSeq(r, a[1..], b));
  }

  /** One row of the padded product. */
  lemma PaddedSum<F(!new)>(r: Ring<F>, k: F, b: seq<F>, m: nat, n: nat, w: nat, t: seq<F>)
    requires IsRing(r) && |t| == |b| + w - 1 && |b| > 0
    ensures AddSeq(r, ScaleSeq(r, k, b + Zeros(r, n)) + Zeros(r, w + m), [r.zero] + (t + Zeros(r, m + n)))
         == AddSeq(r, ScaleSeq(r, k, b) + Zeros(r, w), [r.zero] + t) + Zeros(r, m + n)
  {
    MulZero(r, k);
    AddZero(r, r.zero);
    hide IsRing;
    var x := ScaleSeq(r, k, b + Zeros(r, n)) + Zeros(r, w + m);
    assert x == ScaleSeq(r, k, b) + Zeros(r, w + m + n);
  }

  lemma {:induction false} MulZerosSeq<F(!new)>(r: Ring<F>, m: nat, b: seq<F>)
    requires IsRing(r) && |b| > 0
    ensures forall i :: 0 <= i < |MulSeq(r, Zeros(r, m), b)| ==> MulSeq(r, Zeros(r, m), b)[i] == r.zero
  {
    if m > 0 {
      assert Zeros(r, m)[1..] == Zeros(r, m - 1);
      MulZerosSeq(r, m - 1, b);
      AddZero(r, r.zero);
      forall i | 0 <= i < |b| ensures r.mul(r.zero, b[i]) == r.zero {
        MulZero(r, b[i]);
      }
    }
  }

  // ---- counting roots ----

  /** The quotient of c by X - a. */
  ghost function Deflate<F>(r: Ring<F>, c: seq<F>, a: F): (q: seq<F>)
    ensures |q| == if c == [] then 0 else |c| - 1
  {
    if |c| <= 1 then [] else [Eval(r, c[1..], a)] + Deflate(r, c[1..], a)
  }

  lemma DeflateStep<F(!new)>(r: Ring<F>, c0: F, x: F, a: F, q: F, da: F)
    requires IsRing(r)
    ensures r.add(c0, r.mul(x, r.add(r.mul(r.Sub(x, a), q), da)))
         == r.add(r.mul(r.Sub(x, a), r.add(da, r.mul(x, q))), r.add(c0, r.mul(a, da)))
  {
    var e := r.Sub(x, a);
    SubAdd(r, x, a);
    Identity(r, [c0, e, a, q, da],
             Plus(V(0), Times(Plus(V(1), V(2)), Plus(Times(V(1), V(3)), V(4)))),
             Plus(Times(V(1), Plus(V(4), Times(Plus(V(1), V(2)), V(3)))), Plus(V(0), Times(V(2), V(4)))));
  }

  /** c(x) = (x - a) q(x) + c(a) */
  lemma {:induction false} DeflateExact<F(!new)>(r: Ring<F>, c: seq<F>, a: F, x: F)
    requires IsRing(r) && c != []
    ensures Eval(r, c, x) == r.add(r.mul(r.Sub(x, a), Eval(r, Deflate(r, c, a), x)), Eval(r, c, a))
  {
    if |c| == 1 {
      assert Eval(r, c[1..], x) == r.zero && Eval(r, c[1..], a) == r.zero;
      MulZero(r, x);
      MulZero(r, a);
      MulZero(r, r.Sub(x, a));
      AddZero(r, Eval(r, c, a));
    } else {
      var d := c[1..];
      DeflateExact(r, d, a, x);
      var q := Deflate(r, c, a);
      assert q[1..] == Deflate(r, d, a);
      DeflateStep(r, c[0], x, a, Eval(r, Deflate(r, d, a), x), Eval(r, d, a));
    }
  }

  lemma {:induction false} DeflateNonZero<F(!new)>(r: Ring<F>, c: seq<F>, a: F)
    requires IsRing(r)
    requires Eval(r, c, a) == r.zero && AllZero(r, Deflate(r, c, a))
    ensures AllZero(r, c)
  {
    if c != [] {
      var d := c[1..];
      if |c| > 1 {
        var q := Deflate(r, c, a);
        assert q[0] == Eval(r, d, a) == r.zero;
        assert q[1..] == Deflate(r, d, a);
        assert forall i :: 0 <= i < |q[1..]| ==> q[1..][i] == q[i + 1];
        DeflateNonZero(r, d, a);
      }
      MulZero(r, a);
      AddZero(r, c[0]);
      assert forall i :: 0 <= i < |d| ==> d[i] == c[i + 1];
      assert c[0] == r.zero;
    }
  }

  /** Over a domain, a polynomial with a non-zero coefficient has fewer roots than coefficients. */
  lemma {:induction false} RootBound<F(!new)>(r: Ring<F>, c: seq<F>, roots: set<F>)
    requires IsDomain(r)
    requires !AllZero(r, c)
    requires forall x :: x in roots ==> Eval(r, c, x) == r.zero
    ensures |roots| < |c|
    decreases |c|
  {
    if roots != {} {
      var a :| a in roots;
      var q := Deflate(r, c, a);
      if AllZero(r, q) {
        DeflateNonZero(r, c, a);
        assert false;
      }
      var others := roots - {a};
      forall x | x in others ensures Eval(r, q, x) == r.zero {
        DeflateExact(r, c, a, x);
        AddZero(r, r.mul(r.Sub(x, a), Eval(r, q, x)));
        SubIsZero(r, x, a);
        assert At((r.Sub(x, a), Eval(r, q, x)));
      }
      RootBound(r, q, others);
      assert roots == others + {a};
    }
  }

  lemma {:induction false} PowerSumIsEval<F(!new)>(r: Ring<F>, x: F, s: seq<F>)
    requires IsRing(r)
    ensures PowerSum(r, x, s) == Eval(r, [r.zero] + s, x)
  {
    if s == [] {
      assert Eval(r, [r.zero] + s, x) == r.add(r.zero, r.mul(x, Eval(r, ([r.zero] + s)[1..], x)));
      MulZero(r, x);
      AddZero(r, r.zero);
    } else {
      var n := |s| - 1;
      PowerSumIsEval(r, x, s[..n]);
      assert [r.zero] + s == ([r.zero] + s[..n]) + [s[n]];
      EvalSnoc(r, [r.zero] + s[..n], s[n], x);
      MulComm(r, s[n], Pow(r, x, n + 1));
    }
  }

  /** A list that is not all zero has at most as many vanishing power sums as entries. */
  lemma PowerSumRoots<F(!new)>(r: Ring<F>, s: seq<F>, chis: set<F>)
    requires IsDomain(r) && !AllZero(r, s)
    requires forall x :: x in chis ==> PowerSum(r, x, s) == r.zero
    ensures |chis| <= |s|
  {
    var c := [r.zero] + s;
    forall x | x in chis ensures Eval(r, c, x) == r.zero {
      PowerSumIsEval(r, x, s);
    }
    var i :| 0 <= i < |s| && s[i] != r.zero;
    assert c[i + 1] == s[i];
    RootBound(r, c, chis);
  }
}
