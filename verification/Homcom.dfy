/** Authenticated values, the functionality that hands them out, and its batched checks.
    Both parties' code is given; a pair of calls is run in lockstep by the lemmas and methods below. */
module Homcom {
  import opened Rings
  import opened RingNormaliser
  import opened Sums

  datatype MacProver<F> = MacProver(x: F, m: F)
  datatype MacVerifier<F> = MacVerifier(k: F)

  /** The relation m = k + delta * x between the two halves of an authenticated value. */
  ghost predicate Auth<F>(r: Ring<F>, delta: F, p: MacProver<F>, v: MacVerifier<F>) {
    p.m == r.add(v.k, r.mul(delta, p.x))
  }

  ghost predicate AuthAll<F>(r: Ring<F>, delta: F, ps: seq<MacProver<F>>, vs: seq<MacVerifier<F>>) {
    |ps| == |vs| && forall i :: 0 <= i < |ps| ==> Auth(r, delta, ps[i], vs[i])
  }

  // ---- affine operations ----

  function AddP<F>(r: Ring<F>, a: MacProver<F>, b: MacProver<F>): MacProver<F> {
    MacProver(r.add(a.x, b.x), r.add(a.m, b.m))
  }

  function AddV<F>(r: Ring<F>, a: MacVerifier<F>, b: MacVerifier<F>): MacVerifier<F> {
    MacVerifier(r.add(a.k, b.k))
  }

  function NegP<F>(r: Ring<F>, a: MacProver<F>): MacProver<F> {
    MacProver(r.neg(a.x), r.neg(a.m))
  }

  function NegV<F>(r: Ring<F>, a: MacVerifier<F>): MacVerifier<F> {
    MacVerifier(r.neg(a.k))
  }

  function SubP<F>(r: Ring<F>, a: MacProver<F>, b: MacProver<F>): MacProver<F> {
    MacProver(r.Sub(a.x, b.x), r.Sub(a.m, b.m))
  }

  function SubV<F>(r: Ring<F>, a: MacVerifier<F>, b: MacVerifier<F>): MacVerifier<F> {
    MacVerifier(r.Sub(a.k, b.k))
  }

  function AddCstP<F>(r: Ring<F>, c: F, a: MacProver<F>): MacProver<F> {
    MacProver(r.add(c, a.x), a.m)
  }

  function AddCstV<F>(r: Ring<F>, delta: F, c: F, a: MacVerifier<F>): MacVerifier<F> {
    MacVerifier(r.Sub(a.k, r.mul(c, delta)))
  }

  function MulCstP<F>(r: Ring<F>, c: F, a: MacProver<F>): MacProver<F> {
    MacProver(r.mul(c, a.x), r.mul(c, a.m))
  }

  function MulCstV<F>(r: Ring<F>, c: F, a: MacVerifier<F>): MacVerifier<F> {
    MacVerifier(r.mul(c, a.k))
  }

  lemma AddAuth<F(!new)>(r: Ring<F>, delta: F, a: MacProver<F>, b: MacProver<F>, k: MacVerifier<F>, l: MacVerifier<F>)
    requires IsRing(r) && Auth(r, delta, a, k) && Auth(r, delta, b, l)
    ensures Auth(r, delta, AddP(r, a, b), AddV(r, k, l))
  {
    AddSwap(r, k.k, r.mul(delta, a.x), l.k, r.mul(delta, b.x));
    Distribute(r, delta, a.x, b.x);
  }

  lemma NegAuth<F(!new)>(r: Ring<F>, delta: F, a: MacProver<F>, k: MacVerifier<F>)
    requires IsRing(r) && Auth(r, delta, a, k)
    ensures Auth(r, delta, NegP(r, a), NegV(r, k))
  {
    NegAdd(r, k.k, r.mul(delta, a.x));
    MulNeg(r, delta, a.x);
  }

  lemma SubAuth<F(!new)>(r: Ring<F>, delta: F, a: MacProver<F>, b: MacProver<F>, k: MacVerifier<F>, l: MacVerifier<F>)
    requires IsRing(r) && Auth(r, delta, a, k) && Auth(r, delta, b, l)
    ensures Auth(r, delta, SubP(r, a, b), SubV(r, k, l))
  {
    NegAuth(r, delta, b, l);
    AddAuth(r, delta, a, NegP(r, b), k, NegV(r, l));
  }

  lemma AddCstAuth<F(!new)>(r: Ring<F>, delta: F, c: F, a: MacProver<F>, k: MacVerifier<F>)
    requires IsRing(r) && Auth(r, delta, a, k)
    ensures Auth(r, delta, AddCstP(r, c, a), AddCstV(r, delta, c, k))
  {
    Identity(r, [delta, c, k.k, a.x],
             Plus(V(2), Times(V(0), V(3))),
             Plus(Less(V(2), Times(V(1), V(0))), Times(V(0), Plus(V(1), V(3)))));
  }

  lemma MulCstAuth<F(!new)>(r: Ring<F>, delta: F, c: F, a: MacProver<F>, k: MacVerifier<F>)
    requires IsRing(r) && Auth(r, delta, a, k)
    ensures Auth(r, delta, MulCstP(r, c, a), MulCstV(r, c, k))
  {
    Distribute(r, c, k.k, r.mul(delta, a.x));
    MulAssoc(r, c, delta, a.x);
    MulAssoc(r, delta, c, a.x);
    MulComm(r, c, delta);
  }

  // ---- the pools of random authenticated values ----

  /** Values produced by extension number i. An extension never comes back empty. */
  ghost predicate Productive<T>(supply: nat -> seq<T>) {
    forall i :: |supply(i)| > 0
  }

  datatype Pool<T> = Pool(voles: seq<T>, extensions: nat)

  function Draw<T>(supply: nat -> seq<T>, p: Pool<T>): (T, Pool<T>)
    requires Productive(supply)
  {
    var voles := if p.voles == [] then supply(p.extensions) else p.voles;
    (voles[|voles| - 1], Pool(voles[..|voles| - 1], p.extensions + if p.voles == [] then 1 else 0))
  }

  function DrawN<T>(supply: nat -> seq<T>, p: Pool<T>, n: nat): (res: (seq<T>, Pool<T>))
    requires Productive(supply)
    ensures |res.0| == n
  {
    if n == 0 then ([], p)
    else
      var (s, q) := DrawN(supply, p, n - 1);
      var (e, q') := Draw(supply, q);
      (s + [e], q')
  }

  lemma {:induction false} DrawNSplit<T>(supply: nat -> seq<T>, p: Pool<T>, m: nat, n: nat)
    requires Productive(supply)
    ensures DrawN(supply, p, m + n).0 == DrawN(supply, p, m).0 + DrawN(supply, DrawN(supply, p, m).1, n).0
    ensures DrawN(supply, p, m + n).1 == DrawN(supply, DrawN(supply, p, m).1, n).1
  {
    hide Draw;
    if n > 0 {
      DrawNSplit(supply, p, m, n - 1);
    }
  }

  /** Everything a supply ever delivers has a number: n values from number `from` on. */
  ghost function Delivered<T>(supply: nat -> seq<T>, from: nat, n: nat): (s: seq<T>)
    ensures Productive(supply) ==> |s| == n
  {
    if Productive(supply) then DrawN(supply, DrawN(supply, Pool([], 0), from).1, n).0 else []
  }

  lemma DeliveredSplit<T>(supply: nat -> seq<T>, from: nat, m: nat, n: nat)
    requires Productive(supply)
    ensures Delivered(supply, from, m + n) == Delivered(supply, from, m) + Delivered(supply, from + m, n)
  {
    DrawNSplit(supply, Pool([], 0), from, m);
    DrawNSplit(supply, DrawN(supply, Pool([], 0), from).1, m, n);
  }

  /** What a pool from which `used` values were taken delivers next. */
  lemma DeliveredNext<T>(supply: nat -> seq<T>, p: Pool<T>, used: nat, n: nat)
    requires Productive(supply) && p == DrawN(supply, Pool([], 0), used).1
    ensures Delivered(supply, used, n) == DrawN(supply, p, n).0
    ensures DrawN(supply, p, n).1 == DrawN(supply, Pool([], 0), used + n).1
  {
    DrawNSplit(supply, Pool([], 0), used, n);
  }

  /** All clear values lie in the prime field (as a subset of the extension field). */
  ghost predicate AllIn<F>(prime: F -> bool, ps: seq<MacProver<F>>) {
    forall i :: 0 <= i < |ps| ==> prime(ps[i].x)
  }

  /** Position by position, the two pools (and everything still to come) are authenticated. */
  ghost predicate Correlated<F>(r: Ring<F>, delta: F, prime: F -> bool,
                                ps: nat -> seq<MacProver<F>>, p: Pool<MacProver<F>>,
                                vs: nat -> seq<MacVerifier<F>>, v: Pool<MacVerifier<F>>)
  {
    && Productive(ps) && Productive(vs)
    && p.extensions == v.extensions
    && AuthAll(r, delta, p.voles, v.voles)
    && AllIn(prime, p.voles)
    && forall i :: AuthAll(r, delta, ps(i), vs(i)) && AllIn(prime, ps(i))
  }

  lemma DrawCorrelated<F>(r: Ring<F>, delta: F, prime: F -> bool, ps: nat -> seq<MacProver<F>>, p: Pool<MacProver<F>>,
                          vs: nat -> seq<MacVerifier<F>>, v: Pool<MacVerifier<F>>)
    requires Correlated(r, delta, prime, ps, p, vs, v)
    ensures Auth(r, delta, Draw(ps, p).0, Draw(vs, v).0) && prime(Draw(ps, p).0.x)
    ensures Correlated(r, delta, prime, ps, Draw(ps, p).1, vs, Draw(vs, v).1)
  {
    hide Auth;
    assert AuthAll(r, delta, ps(p.extensions), vs(p.extensions)) && AllIn(prime, ps(p.extensions));
  }

  lemma {:induction false} DrawNCorrelated<F>(r: Ring<F>, delta: F, prime: F -> bool,
                           ps: nat -> seq<MacProver<F>>, p: Pool<MacProver<F>>,
                           vs: nat -> seq<MacVerifier<F>>, v: Pool<MacVerifier<F>>, n: nat)
    requires Correlated(r, delta, prime, ps, p, vs, v)
    ensures AuthAll(r, delta, DrawN(ps, p, n).0, DrawN(vs, v, n).0) && AllIn(prime, DrawN(ps, p, n).0)
    ensures Correlated(r, delta, prime, ps, DrawN(ps, p, n).1, vs, DrawN(vs, v, n).1)
  {
    hide Auth;
    if n > 0 {
      DrawNCorrelated(r, delta, prime, ps, p, vs, v, n - 1);
      var q, w := DrawN(ps, p, n - 1).1, DrawN(vs, v, n - 1).1;
      DrawCorrelated(r, delta, prime, ps, q, vs, w);
    }
  }

  // ---- inputs ----

  function Corrections<F>(r: Ring<F>, xs: seq<F>, drawn: seq<MacProver<F>>): seq<F>
    requires |drawn| == |xs|
  {
    seq(|xs|, i requires 0 <= i < |xs| => r.Sub(xs[i], drawn[i].x))
  }

  function Macs<F>(drawn: seq<MacProver<F>>): (ms: seq<F>)
    ensures |ms| == |drawn|
  {
    seq(|drawn|, i requires 0 <= i < |drawn| => drawn[i].m)
  }

  function CorrectedKeys<F>(r: Ring<F>, delta: F, drawn: seq<MacVerifier<F>>, corrections: seq<F>): seq<MacVerifier<F>>
    requires |drawn| == |corrections|
  {
    seq(|drawn|, i requires 0 <= i < |drawn| => MacVerifier(r.Sub(drawn[i].k, r.mul(corrections[i], delta))))
  }

  function Zip<F>(xs: seq<F>, ms: seq<F>): seq<MacProver<F>>
    requires |xs| == |ms|
  {
    seq(|xs|, i requires 0 <= i < |xs| => MacProver(xs[i], ms[i]))
  }

  /** Turning a random pair into one for a chosen value: m = (k - (x - u) * delta) + delta * x. */
  lemma InputAuth<F(!new)>(r: Ring<F>, delta: F, x: F, d: MacProver<F>, e: MacVerifier<F>)
    requires IsRing(r) && Auth(r, delta, d, e)
    ensures Auth(r, delta, MacProver(x, d.m), MacVerifier(r.Sub(e.k, r.mul(r.Sub(x, d.x), delta))))
  {
    Identity(r, [delta, x, d.x, e.k],
             Plus(V(3), Times(V(0), V(2))),
             Plus(Less(V(3), Times(Less(V(1), V(2)), V(0))), Times(V(0), V(1))));
  }

  lemma InputsAuth<F(!new)>(r: Ring<F>, delta: F, xs: seq<F>, ds: seq<MacProver<F>>, es: seq<MacVerifier<F>>)
    requires IsRing(r) && |ds| == |xs| && AuthAll(r, delta, ds, es)
    ensures AuthAll(r, delta, Zip(xs, Macs(ds)), CorrectedKeys(r, delta, es, Corrections(r, xs, ds)))
  {
    forall i | 0 <= i < |xs|
      ensures Auth(r, delta, Zip(xs, Macs(ds))[i], CorrectedKeys(r, delta, es, Corrections(r, xs, ds))[i])
    {
      InputAuth(r, delta, xs[i], ds[i], es[i]);
    }
  }

  // ---- zero checks and openings ----

  ghost function DotMacs<F>(r: Ring<F>, chis: seq<F>, ps: seq<MacProver<F>>): F
    requires |chis| == |ps|
  {
    Dot(r, chis, Macs(ps))
  }

  function Keys<F>(vs: seq<MacVerifier<F>>): seq<F> {
    seq(|vs|, i requires 0 <= i < |vs| => vs[i].k)
  }

  function Values<F>(ps: seq<MacProver<F>>): (xs: seq<F>)
    ensures |xs| == |ps|
  {
    seq(|ps|, i requires 0 <= i < |ps| => ps[i].x)
  }

  lemma DotStep<F(!new)>(r: Ring<F>, delta: F, a: F, b: F, chi: F, k: F, x: F)
    requires IsRing(r)
    ensures r.add(r.add(a, r.mul(delta, b)), r.mul(chi, r.add(k, r.mul(delta, x))))
         == r.add(r.add(a, r.mul(chi, k)), r.mul(delta, r.add(b, r.mul(chi, x))))
  {
    Identity(r, [delta, a, b, chi, k, x],
             Plus(Plus(V(1), Times(V(0), V(2))), Times(V(3), Plus(V(4), Times(V(0), V(5))))),
             Plus(Plus(V(1), Times(V(3), V(4))), Times(V(0), Plus(V(2), Times(V(3), V(5))))));
  }

  /** The random combination of the macs is that of the keys plus delta times that of the values. */
  lemma {:induction false} DotAuth<F(!new)>(r: Ring<F>, delta: F, chis: seq<F>, ps: seq<MacProver<F>>,
                                            vs: seq<MacVerifier<F>>)
    requires IsRing(r) && |chis| == |ps| && AuthAll(r, delta, ps, vs)
    ensures Dot(r, chis, Macs(ps)) == r.add(Dot(r, chis, Keys(vs)), r.mul(delta, Dot(r, chis, Values(ps))))
  {
    if ps == [] {
      MulZero(r, delta);
      AddZero(r, r.zero);
    } else {
      var n := |ps| - 1;
      DotAuth(r, delta, chis[..n], ps[..n], vs[..n]);
      assert Macs(ps)[..n] == Macs(ps[..n]);
      assert Keys(vs)[..n] == Keys(vs[..n]);
      assert Values(ps)[..n] == Values(ps[..n]);
      DotStep(r, delta, Dot(r, chis[..n], Keys(vs[..n])), Dot(r, chis[..n], Values(ps[..n])), chis[n], vs[n].k,
              ps[n].x);
    }
  }

  lemma DotGrows<F(!new)>(r: Ring<F>, basis: seq<F>, x: F, us: seq<MacProver<F>>, u: MacProver<F>)
    requires |basis| == |us|
    ensures Dot(r, basis + [x], Values(us + [u])) == r.add(Dot(r, basis, Values(us)), r.mul(x, u.x))
    ensures Dot(r, basis + [x], Macs(us + [u])) == r.add(Dot(r, basis, Macs(us)), r.mul(x, u.m))
  {
    var n := |us|;
    assert (basis + [x])[..n] == basis;
    assert Values(us + [u])[..n] == Values(us) && Macs(us + [u])[..n] == Macs(us);
  }

  lemma KeyDotGrows<F(!new)>(r: Ring<F>, basis: seq<F>, x: F, vs: seq<MacVerifier<F>>, v: MacVerifier<F>)
    requires |basis| == |vs|
    ensures Dot(r, basis + [x], Keys(vs + [v])) == r.add(Dot(r, basis, Keys(vs)), r.mul(x, v.k))
  {
    var n := |vs|;
    assert (basis + [x])[..n] == basis;
    assert Keys(vs + [v])[..n] == Keys(vs);
  }

  /** The verifier's test in `check_zero`, on the combined mac it received. */
  ghost predicate ZeroAccepts<F>(r: Ring<F>, chis: seq<F>, vs: seq<MacVerifier<F>>, m: F)
    requires |chis| == |vs|
  {
    Dot(r, chis, Keys(vs)) == m
  }

  /** For authenticated values and an honest message, a zero check accepts exactly when
      delta * sum(chi_i * x_i) = 0. */
  lemma ZeroCheckExact<F(!new)>(r: Ring<F>, delta: F, chis: seq<F>, ps: seq<MacProver<F>>, vs: seq<MacVerifier<F>>)
    requires IsRing(r) && |chis| == |ps| && AuthAll(r, delta, ps, vs)
    ensures ZeroAccepts(r, chis, vs, DotMacs(r, chis, ps)) <==> r.mul(delta, Dot(r, chis, Values(ps))) == r.zero
    ensures (forall i :: 0 <= i < |ps| ==> ps[i].x == r.zero) ==> ZeroAccepts(r, chis, vs, DotMacs(r, chis, ps))
  {
    DotAuth(r, delta, chis, ps, vs);
    var k, t := Dot(r, chis, Keys(vs)), r.mul(delta, Dot(r, chis, Values(ps)));
    AddZero(r, k);
    if r.add(k, t) == k {
      CancelAdd(r, k, t, r.zero);
    }
    if forall i :: 0 <= i < |ps| ==> ps[i].x == r.zero {
      DotZero(r, chis, Values(ps));
      MulZero(r, delta);
    }
  }

  /** The verifier's test in `open`, on the values and the combined mac it received. */
  ghost predicate OpenAccepts<F>(r: Ring<F>, delta: F, chis: seq<F>, vs: seq<MacVerifier<F>>, xs: seq<F>, m: F)
    requires |chis| == |vs| == |xs|
  {
    r.add(Dot(r, chis, Keys(vs)), r.mul(delta, Dot(r, chis, xs))) == m
  }

  lemma {:induction false} DotSub<F(!new)>(r: Ring<F>, chis: seq<F>, xs: seq<F>, ys: seq<F>)
    requires IsRing(r) && |chis| == |xs| == |ys|
    ensures Dot(r, chis, seq(|xs|, i requires 0 <= i < |xs| => r.Sub(xs[i], ys[i])))
         == r.Sub(Dot(r, chis, xs), Dot(r, chis, ys))
  {
    var d := seq(|xs|, i requires 0 <= i < |xs| => r.Sub(xs[i], ys[i]));
    if xs == [] {
      NegZero(r);
      AddZero(r, r.zero);
    } else {
      var n := |xs| - 1;
      DotSub(r, chis[..n], xs[..n], ys[..n]);
      assert d[..n] == seq(n, i requires 0 <= i < n => r.Sub(xs[..n][i], ys[..n][i]));
      Distribute(r, chis[n], xs[n], r.neg(ys[n]));
      MulNeg(r, chis[n], ys[n]);
      SignedSum(r, Dot(r, chis[..n], xs[..n]), Dot(r, chis[..n], ys[..n]), r.mul(chis[n], xs[n]),
                r.mul(chis[n], ys[n]));
    }
  }

  /** Opening authenticated values accepts the true values; announcing other values xs with the honest
      combined mac is accepted exactly when delta * sum(chi_i * (x_i - true_i)) = 0. */
  lemma OpenExact<F(!new)>(r: Ring<F>, delta: F, chis: seq<F>, ps: seq<MacProver<F>>, vs: seq<MacVerifier<F>>,
                           xs: seq<F>)
    requires IsRing(r) && |chis| == |ps| == |xs| && AuthAll(r, delta, ps, vs)
    ensures OpenAccepts(r, delta, chis, vs, Values(ps), DotMacs(r, chis, ps))
    ensures OpenAccepts(r, delta, chis, vs, xs, DotMacs(r, chis, ps))
       <==> r.mul(delta, Dot(r, chis, seq(|xs|, i requires 0 <= i < |xs| => r.Sub(xs[i], Values(ps)[i])))) == r.zero
  {
    DotAuth(r, delta, chis, ps, vs);
    DotSub(r, chis, xs, Values(ps));
    var k, a, b := Dot(r, chis, Keys(vs)), Dot(r, chis, xs), Dot(r, chis, Values(ps));
    Distribute(r, delta, a, r.neg(b));
    MulNeg(r, delta, b);
    SubIsZero(r, r.mul(delta, a), r.mul(delta, b));
    if r.add(k, r.mul(delta, a)) == r.add(k, r.mul(delta, b)) {
      CancelAdd(r, k, r.mul(delta, a), r.mul(delta, b));
    }
  }

  /** The authenticated values that an input of xs makes of the random values us. */
  function CommitAll<F>(xs: seq<F>, us: seq<MacProver<F>>): (ps: seq<MacProver<F>>)
    ensures |ps| == |xs|
  {
    seq(|xs|, i requires 0 <= i < |xs| => MacProver(xs[i], if i < |us| then us[i].m else xs[i]))
  }

  lemma CommitIs<F>(xs: seq<F>, us: seq<MacProver<F>>, ps: seq<MacProver<F>>)
    requires Values(ps) == xs && Macs(ps) == Macs(us)
    ensures ps == CommitAll(xs, us)
  {
    forall i | 0 <= i < |ps| ensures ps[i] == CommitAll(xs, us)[i] {
      assert Values(ps)[i] == ps[i].x && Macs(ps)[i] == ps[i].m && Macs(us)[i] == us[i].m;
    }
  }

  lemma CommitAppend<F>(xs: seq<F>, us: seq<MacProver<F>>, ys: seq<F>, vs: seq<MacProver<F>>)
    requires |us| == |xs|
    ensures CommitAll(xs + ys, us + vs) == CommitAll(xs, us) + CommitAll(ys, vs)
  {
  }

  // ---- the parties ----

  class FComProver<F(!new, ==)> {
    const r: Ring<F>
    const prime: F -> bool                   // membership in the prime field, from which clear values are taken
    const basis: seq<F>                      // 1, X, X^2, ... of the extension field over its prime field
    const supply: nat -> seq<MacProver<F>>   // what each VOLE extension delivers
    var voles: seq<MacProver<F>>
    var used: nat
    var extensions: nat

    constructor (r: Ring<F>, prime: F -> bool, basis: seq<F>, supply: nat -> seq<MacProver<F>>)
      ensures this.r == r && this.prime == prime && this.basis == basis && this.supply == supply
      ensures State() == Pool([], 0) && used == 0
    {
      this.r, this.prime, this.basis, this.supply := r, prime, basis, supply;
      voles, used, extensions := [], 0, 0;
    }

    function State(): Pool<MacProver<F>>
      reads this
    {
      Pool(voles, extensions)
    }

    /** The random values numbered from `from` on, counted since the start. */
    ghost function Voles(from: nat, n: nat): (s: seq<MacProver<F>>)
      ensures Productive(supply) ==> |s| == n
    {
      Delivered(supply, from, n)
    }

    /** The pool is what is left after the values used so far. */
    ghost predicate Counted()
      reads this
    {
      Productive(supply) && State() == DrawN(supply, Pool([], 0), used).1
    }

    method Random() returns (e: MacProver<F>)
      requires Productive(supply)
      modifies this
      ensures (e, State()) == Draw(supply, old(State()))
      ensures used == old(used) + 1
    {
      used := used + 1;
      if voles == [] {
        voles := voles + supply(extensions);
        assert voles == supply(extensions);
        extensions := extensions + 1;
      }
      e := voles[|voles| - 1];
      voles := voles[..|voles| - 1];
    }

    /** Returns the macs, and the corrections that go to the verifier. */
    method Input(xs: seq<F>) returns (macs: seq<F>, corrections: seq<F>)
      requires Productive(supply)
      modifies this
      ensures used == old(used) + |xs|
      ensures var (ds, pool) := DrawN(supply, old(State()), |xs|);
              State() == pool && macs == Macs(ds) && corrections == Corrections(r, xs, ds)
    {
      macs, corrections := [], [];
      ghost var ds := [];
      for i := 0 to |xs|
        invariant used == old(used) + i
        invariant (ds, State()) == DrawN(supply, old(State()), i)
        invariant macs == Macs(ds)
        invariant corrections == Corrections(r, xs[..i], ds)
      {
        var e := Random();
        macs := macs + [e.m];
        corrections := corrections + [r.Sub(xs[i], e.x)];
        ds := ds + [e];
      }
      assert xs[..|xs|] == xs;
    }

    /** The combined mac to send, and whether this party itself sees only zeros. */
    method CheckZero(chis: seq<F>, batch: seq<MacProver<F>>) returns (m: F, ok: bool)
      requires |chis| == |batch|
      ensures m == DotMacs(r, chis, batch)
      ensures ok <==> forall i :: 0 <= i < |batch| ==> batch[i].x == r.zero
    {
      m, ok := r.zero, true;
      for i := 0 to |batch|
        invariant m == Dot(r, chis[..i], Macs(batch)[..i])
        invariant ok <==> forall j :: 0 <= j < i ==> batch[j].x == r.zero
      {
        ok := ok && batch[i].x == r.zero;
        m := r.add(m, r.mul(chis[i], batch[i].m));
        assert chis[..i + 1][..i] == chis[..i] && Macs(batch)[..i + 1][..i] == Macs(batch)[..i];
      }
      assert chis[..|batch|] == chis && Macs(batch)[..|batch|] == Macs(batch);
    }

    /** The values and the combined mac; the challenges are a hash of the values. */
    method Open(hash: seq<F> -> seq<F>, batch: seq<MacProver<F>>) returns (xs: seq<F>, m: F)
      requires Hashes(hash)
      ensures xs == Values(batch) && m == DotMacs(r, hash(xs), batch)
    {
      xs := Values(batch);
      var chis := hash(xs);
      m := r.zero;
      for i := 0 to |batch|
        invariant m == Dot(r, chis[..i], Macs(batch)[..i])
      {
        m := r.add(m, r.mul(chis[i], batch[i].m));
        assert chis[..i + 1][..i] == chis[..i] && Macs(batch)[..i + 1][..i] == Macs(batch)[..i];
      }
      assert chis[..|batch|] == chis && Macs(batch)[..|batch|] == Macs(batch);
    }
  }

  /** The challenges hashed from opened values are as many as the values. */
  ghost predicate Hashes<F(!new)>(hash: seq<F> -> seq<F>) {
    forall s: seq<F> :: |hash(s)| == |s|
  }

  class FComVerifier<F(!new, ==)> {
    const r: Ring<F>
    const basis: seq<F>
    const delta: F
    const supply: nat -> seq<MacVerifier<F>>
    var voles: seq<MacVerifier<F>>
    var used: nat
    var extensions: nat

    constructor (r: Ring<F>, basis: seq<F>, delta: F, supply: nat -> seq<MacVerifier<F>>)
      ensures this.r == r && this.basis == basis && this.delta == delta && this.supply == supply
      ensures State() == Pool([], 0) && used == 0
    {
      this.r, this.basis, this.delta, this.supply := r, basis, delta, supply;
      voles, used, extensions := [], 0, 0;
    }

    function State(): Pool<MacVerifier<F>>
      reads this
    {
      Pool(voles, extensions)
    }

    method Random() returns (e: MacVerifier<F>)
      requires Productive(supply)
      modifies this
      ensures (e, State()) == Draw(supply, old(State()))
      ensures used == old(used) + 1
    {
      used := used + 1;
      if voles == [] {
        voles := voles + supply(extensions);
        assert voles == supply(extensions);
        extensions := extensions + 1;
      }
      e := voles[|voles| - 1];
      voles := voles[..|voles| - 1];
    }

    method Input(corrections: seq<F>) returns (keys: seq<MacVerifier<F>>)
      requires Productive(supply)
      modifies this
      ensures used == old(used) + |corrections|
      ensures var (ds, pool) := DrawN(supply, old(State()), |corrections|);
              State() == pool && keys == CorrectedKeys(r, delta, ds, corrections)
    {
      var drawn := [];
      for i := 0 to |corrections|
        invariant used == old(used) + i
        invariant (drawn, State()) == DrawN(supply, old(State()), i)
      {
        var e := Random();
        drawn := drawn + [e];
      }
      keys := [];
      for i := 0 to |corrections|
        invariant |keys| == i
        invariant forall j :: 0 <= j < i ==> keys[j] == MacVerifier(r.Sub(drawn[j].k, r.mul(corrections[j], delta)))
      {
        keys := keys + [MacVerifier(r.Sub(drawn[i].k, r.mul(corrections[i], delta)))];
      }
    }

    method CheckZero(chis: seq<F>, keys: seq<MacVerifier<F>>, m: F) returns (ok: bool)
      requires |chis| == |keys|
      ensures ok <==> ZeroAccepts(r, chis, keys, m)
    {
      var keyChi := r.zero;
      for i := 0 to |keys|
        invariant keyChi == Dot(r, chis[..i], Keys(keys)[..i])
      {
        keyChi := r.add(keyChi, r.mul(chis[i], keys[i].k));
        assert chis[..i + 1][..i] == chis[..i] && Keys(keys)[..i + 1][..i] == Keys(keys)[..i];
      }
      assert chis[..|keys|] == chis && Keys(keys)[..|keys|] == Keys(keys);
      ok := keyChi == m;
    }

    method Open(hash: seq<F> -> seq<F>, keys: seq<MacVerifier<F>>, xs: seq<F>, m: F) returns (ok: bool)
      requires Hashes(hash)
      requires |xs| == |keys|
      ensures ok <==> OpenAccepts(r, delta, hash(xs), keys, xs, m)
    {
      var chis := hash(xs);
      var keyChi, xChi := r.zero, r.zero;
      for i := 0 to |keys|
        invariant keyChi == Dot(r, chis[..i], Keys(keys)[..i])
        invariant xChi == Dot(r, chis[..i], xs[..i])
      {
        keyChi := r.add(keyChi, r.mul(chis[i], keys[i].k));
        xChi := r.add(xChi, r.mul(chis[i], xs[i]));
        assert chis[..i + 1][..i] == chis[..i] && Keys(keys)[..i + 1][..i] == Keys(keys)[..i];
        assert xs[..i + 1][..i] == xs[..i];
      }
      assert chis[..|keys|] == chis && Keys(keys)[..|keys|] == Keys(keys) && xs[..|keys|] == xs;
      ok := r.add(keyChi, r.mul(delta, xChi)) == m;
    }
  }

  /** The two parties' states hold matching pools, and the prover's is what is left after the values it has used. */
  ghost predicate Linked<F(!new)>(p: FComProver<F>, v: FComVerifier<F>)
    reads p, v
  {
    && p.r == v.r && p.basis == v.basis && IsRing(p.r)
    && Correlated(p.r, v.delta, p.prime, p.supply, p.State(), v.supply, v.State())
    && p.Counted()
  }

  lemma LinkedRing<F(!new)>(p: FComProver<F>, v: FComVerifier<F>)
    requires Linked(p, v)
    ensures IsRing(p.r) && p.r == v.r
  {
  }

  lemma LinkedVoles<F(!new)>(p: FComProver<F>, v: FComVerifier<F>, from: nat, m: nat, n: nat)
    requires Linked(p, v)
    ensures |p.Voles(from, n)| == n && p.Voles(from, 0) == []
    ensures p.Voles(from, m + n) == p.Voles(from, m) + p.Voles(from + m, n)
  {
    DeliveredSplit(p.supply, from, m, n);
  }

  lemma NoVoles<F(!new)>(p: FComProver<F>, v: FComVerifier<F>)
    requires Linked(p, v)
    ensures forall from :: p.Voles(from, 0) == []
  {
  }

  /** n more values, after m. */
  lemma MoreVoles<F(!new)>(p: FComProver<F>, v: FComVerifier<F>, from: nat, m: nat, n: nat)
    requires Linked(p, v)
    ensures |p.Voles(from, m + n)| == m + n
    ensures p.Voles(from, m + n) == p.Voles(from, m) + p.Voles(from + m, n)
    ensures |p.Voles(from, m)| == m && |p.Voles(from + m, n)| == n
  {
    hide DrawN;
    LinkedVoles(p, v, from, m, n);
  }

  lemma CountedState<F(!new)>(p: FComProver<F>)
    requires p.Counted()
    ensures Productive(p.supply) && p.State() == DrawN(p.supply, Pool([], 0), p.used).1
  {
  }

  lemma StillCounted<F(!new)>(p: FComProver<F>)
    requires Productive(p.supply) && p.State() == DrawN(p.supply, Pool([], 0), p.used).1
    ensures p.Counted()
  {
  }

  lemma NextVoles<F(!new)>(p: FComProver<F>, v: FComVerifier<F>, n: nat)
    requires Linked(p, v)
    ensures DrawN(p.supply, p.State(), n).0 == p.Voles(p.used, n)
    ensures DrawN(p.supply, p.State(), n).1 == DrawN(p.supply, Pool([], 0), p.used + n).1
  {
    DeliveredNext(p.supply, p.State(), p.used, n);
  }

  /** One input, run by both parties: the values are authenticated and the pools still match. */
  method RunInput<F(!new, ==)>(p: FComProver<F>, v: FComVerifier<F>, xs: seq<F>)
    returns (ps: seq<MacProver<F>>, vs: seq<MacVerifier<F>>)
    requires Linked(p, v)
    modifies p, v
    ensures Linked(p, v)
    ensures AuthAll(p.r, v.delta, ps, vs) && Values(ps) == xs
    ensures ps == CommitAll(xs, p.Voles(old(p.used), |xs|))
    ensures p.used == old(p.used) + |xs| && v.used == old(v.used) + |xs|
  {
    hide DrawN;
    hide p.Counted;
    DrawNCorrelated(p.r, v.delta, p.prime, p.supply, p.State(), v.supply, v.State(), |xs|);
    NextVoles(p, v, |xs|);
    ghost var ds, es := DrawN(p.supply, p.State(), |xs|).0, DrawN(v.supply, v.State(), |xs|).0;
    var macs, corrections := p.Input(xs);
    vs := v.Input(corrections);
    ps := Zip(xs, macs);
    StillCounted(p);
    InputsAuth(p.r, v.delta, xs, ds, es);
    assert Values(ps) == xs && Macs(ps) == macs;
    CommitIs(xs, ds, ps);
  }

  method RunRandom<F(!new, ==)>(p: FComProver<F>, v: FComVerifier<F>)
    returns (mp: MacProver<F>, mv: MacVerifier<F>)
    requires Linked(p, v)
    modifies p, v
    ensures Linked(p, v) && Auth(p.r, v.delta, mp, mv) && p.prime(mp.x) && [mp] == p.Voles(old(p.used), 1)
    ensures p.used == old(p.used) + 1 && v.used == old(v.used) + 1
  {
    DrawNCorrelated(p.r, v.delta, p.prime, p.supply, p.State(), v.supply, v.State(), 1);
    NextVoles(p, v, 1);
    assert DrawN(p.supply, p.State(), 0) == ([], p.State()) && DrawN(v.supply, v.State(), 0) == ([], v.State());
    mp := p.Random();
    mv := v.Random();
    StillCounted(p);
  }
}
