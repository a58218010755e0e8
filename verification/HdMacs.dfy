/** The in-place operations on values of higher degree, and the running state of their check. */
module HdMacs {
  import opened Arith
  import opened Rings
  import opened Sums
  import opened Polynomials
  import opened Homcom
  import opened HdQuicksilver

  /** The index of the top non-zero coefficient (0 for the zero polynomial). */
  function TopDegree<F(==)>(r: Ring<F>, poly: seq<F>): (d: nat)
    requires poly != []
    ensures d < |poly|
    ensures forall i :: d < i < |poly| ==> poly[i] == r.zero
  {
    if |poly| > 1 && poly[|poly| - 1] == r.zero then TopDegree(r, poly[..|poly| - 1]) else |poly| - 1
  }

  ghost function Padded<F>(r: Ring<F>, poly: seq<F>, d: nat): (c: seq<F>)
    requires |poly| <= d + 1
  {
    poly + Zeros(r, d + 1 - |poly|)
  }

  lemma NothingPadded<F>(r: Ring<F>, poly: seq<F>, d: nat)
    requires |poly| == d + 1
    ensures Padded(r, poly, d) == poly
  {
  }

  lemma Trimmed<F(!new)>(r: Ring<F>, poly: seq<F>, m: nat, d: nat)
    requires 0 < m <= |poly| <= d + 1
    requires forall i :: m <= i < |poly| ==> poly[i] == r.zero
    ensures Padded(r, poly, d) == poly[..m] + Zeros(r, d + 1 - m)
  {
  }

  /** Multiplying the trimmed coefficients gives the product of the full ones. */
  lemma TrimmedProduct<F(!new)>(r: Ring<F>, a: seq<F>, m: nat, da: nat, b: seq<F>, n: nat, db: nat)
    requires IsRing(r)
    requires 0 < m <= |a| <= da + 1 && forall i :: m <= i < |a| ==> a[i] == r.zero
    requires 0 < n <= |b| <= db + 1 && forall i :: n <= i < |b| ==> b[i] == r.zero
    ensures Padded(r, MulSeq(r, a[..m], b[..n]), da + db) == MulSeq(r, Padded(r, a, da), Padded(r, b, db))
  {
    Trimmed(r, a, m, da);
    Trimmed(r, b, n, db);
    MulSeqPadded(r, a[..m], da + 1 - m, b[..n], db + 1 - n);
  }

  class HDMacProver<F(!new, ==)> {
    const r: Ring<F>
    var poly: seq<F>              // of 1, X, X^2, ...
    var qsDegree: nat

    ghost predicate Valid()
      reads this
    {
      IsRing(r) && qsDegree >= 1 && 1 <= |poly| <= qsDegree + 1
    }

    /** All coefficients up to the degree. */
    ghost function Full(): (c: seq<F>)
      reads this
      requires Valid()
      ensures |c| == qsDegree + 1
    {
      Padded(r, poly, qsDegree)
    }

    constructor Default(r: Ring<F>)
      requires IsRing(r)
      ensures Valid() && Full() == [r.zero, r.zero] && this.r == r
    {
      this.r := r;
      poly, qsDegree := [r.zero], 1;
    }

    constructor NewConstant(r: Ring<F>, x: F)
      requires IsRing(r)
      ensures Valid() && Full() == [r.zero, x] && this.r == r
    {
      this.r := r;
      poly, qsDegree := [r.zero, x], 1;
    }

    constructor From(r: Ring<F>, p: MacProver<F>)
      requires IsRing(r)
      ensures Valid() && Full() == FromMac(r, p) && this.r == r
    {
      this.r := r;
      poly, qsDegree := [r.neg(p.m), p.x], 1;
    }

    constructor Clone(other: HDMacProver<F>)
      requires other.Valid()
      ensures Valid() && Full() == other.Full() && r == other.r
    {
      r := other.r;
      poly, qsDegree := other.poly, other.qsDegree;
    }

    /** From all coefficients. */
    constructor Load(r: Ring<F>, c: seq<F>)
      requires IsRing(r) && |c| >= 2
      ensures Valid() && Full() == c && this.r == r && qsDegree == |c| - 1
    {
      this.r := r;
      poly, qsDegree := c, |c| - 1;
    }

    method Coefficients() returns (c: seq<F>)
      requires Valid()
      ensures c == Full()
    {
      c := poly + Zeros(r, qsDegree + 1 - |poly|);
    }

    method GetValue() returns (x: F)
      requires Valid()
      ensures x == Value(Full())
    {
      if qsDegree > TopDegree(r, poly) {
        x := r.zero;
      } else {
        x := poly[qsDegree];
      }
    }

    /** Multiplies by X^n, then fills up with zeros to the degree. */
    method AlignTo(n: nat)
      requires Valid()
      modifies this
      ensures Valid() && qsDegree == Max(old(qsDegree), n) && |poly| == qsDegree + 1
      ensures Full() == poly == Align(r, old(Full()), qsDegree + 1)
    {
      if n > qsDegree {
        poly := Zeros(r, n - qsDegree) + poly;
        qsDegree := n;
      }
      poly := poly + Zeros(r, qsDegree + 1 - |poly|);
    }

    method AddSubAssign(add: bool, other: HDMacProver<F>)
      requires Valid() && other.Valid() && other != this && other.r == r
      modifies this
      ensures Valid()
      ensures Full() == if add then HdAdd(r, old(Full()), other.Full()) else HdSub(r, old(Full()), other.Full())
    {
      ghost var theirs := Padded(r, other.poly, other.qsDegree);
      assert |theirs| == other.qsDegree + 1;
      hide IsRing, AddSeq, SubSeq, Align, Padded;
      AlignTo(other.qsDegree);
      poly := Accumulate(r, add, poly, qsDegree - other.qsDegree, other.poly, other.qsDegree);
      NothingPadded(r, poly, qsDegree);
    }

    method AddAssign(other: HDMacProver<F>)
      requires Valid() && other.Valid() && other != this && other.r == r
      modifies this
      ensures Valid() && Full() == HdAdd(r, old(Full()), other.Full())
    {
      AddSubAssign(true, other);
    }

    method SubAssign(other: HDMacProver<F>)
      requires Valid() && other.Valid() && other != this && other.r == r
      modifies this
      ensures Valid() && Full() == HdSub(r, old(Full()), other.Full())
    {
      AddSubAssign(false, other);
    }

    method AddAssignConstant(x: F)
      requires Valid()
      modifies this
      ensures Valid() && Full() == HdAddCst(r, old(Full()), x)
    {
      AlignTo(qsDegree);
      poly := poly[qsDegree := r.add(poly[qsDegree], x)];
    }

    method SubAssignConstant(x: F)
      requires Valid()
      modifies this
      ensures Valid() && Full() == HdSubCst(r, old(Full()), x)
    {
      AlignTo(qsDegree);
      poly := poly[qsDegree := r.Sub(poly[qsDegree], x)];
    }

    /** The product is formed from the coefficients that remain after dropping zeros at the top. */
    method MulAssign(other: HDMacProver<F>)
      requires Valid() && other.Valid() && other.r == r
      modifies this
      ensures Valid() && Full() == MulSeq(r, old(Full()), old(other.Full()))
      ensures qsDegree == old(qsDegree) + old(other.qsDegree)
    {
      var m, n := TopDegree(r, poly) + 1, TopDegree(r, other.poly) + 1;
      TrimmedProduct(r, poly, m, qsDegree, other.poly, n, other.qsDegree);
      poly, qsDegree := MulSeq(r, poly[..m], other.poly[..n]), qsDegree + other.qsDegree;
    }

    method MulAssignConstant(x: F)
      requires Valid()
      modifies this
      ensures Valid() && Full() == ScaleSeq(r, x, old(Full()))
    {
      ghost var before := Full();
      poly := ScaleSeq(r, x, poly);
      MulZero(r, x);
      assert Full() == ScaleSeq(r, x, before);
    }

    method XorAssign(other: HDMacProver<F>)
      requires Valid() && other.Valid() && other != this && other.r == r
      modifies this
      ensures Valid() && Full() == HdXor(r, old(Full()), other.Full())
    {
      var t := new HDMacProver.Clone(this);
      t.MulAssign(other);
      t.MulAssignConstant(MinusTwo(r));
      AddAssign(other);
      AddAssign(t);
    }
  }

  /** Adds (or subtracts) the coefficients of b, up to its top one, at the given offset. */
  method Accumulate<F(!new, ==)>(r: Ring<F>, add: bool, a: seq<F>, offset: nat, b: seq<F>, d: nat) returns (c: seq<F>)
    requires IsRing(r) && 1 <= |b| <= d + 1 && |a| == offset + d + 1
    ensures |c| == |a|
    ensures c
         == if add then AddSeq(r, a, Align(r, Padded(r, b, d), |a|)) else SubSeq(r, a, Align(r, Padded(r, b, d), |a|))
  {
    ghost var theirs := Align(r, Padded(r, b, d), |a|);
    ghost var done := if add then AddSeq(r, a, theirs) else SubSeq(r, a, theirs);
    forall j | 0 <= j < |a| && theirs[j] == r.zero ensures done[j] == a[j] {
      NegZero(r);
      AddZero(r, a[j]);
    }
    c := a;
    var top := TopDegree(r, b);
    for i := 0 to top + 1
      invariant |c| == |a|
      invariant forall j :: 0 <= j < offset + i ==> c[j] == done[j]
      invariant forall j :: offset + i <= j < |a| ==> c[j] == a[j]
    {
      assert b[i] == theirs[offset + i];
      c := c[offset + i := if add then r.add(c[offset + i], b[i]) else r.Sub(c[offset + i], b[i])];
    }
  }

  class HDMacVerifier<F(!new, ==)> {
    const r: Ring<F>
    var mac: F
    var qsDegree: nat

    ghost predicate Valid()
      reads this
    {
      IsRing(r) && qsDegree >= 1
    }

    ghost function Key(): HdKey<F>
      reads this
    {
      HdKey(mac, qsDegree)
    }

    constructor Default(r: Ring<F>)
      requires IsRing(r)
      ensures Valid() && Key() == HdKey(r.zero, 1) && this.r == r
    {
      this.r := r;
      mac, qsDegree := r.zero, 1;
    }

    constructor NewConstant(r: Ring<F>, delta: F, x: F)
      requires IsRing(r)
      ensures Valid() && Key() == HdKey(r.mul(delta, x), 1) && this.r == r
    {
      this.r := r;
      mac, qsDegree := r.mul(delta, x), 1;
    }

    constructor From(r: Ring<F>, v: MacVerifier<F>)
      requires IsRing(r)
      ensures Valid() && Key() == KeyFromMac(r, v) && this.r == r
    {
      this.r := r;
      mac, qsDegree := r.neg(v.k), 1;
    }

    constructor Load(r: Ring<F>, k: HdKey<F>)
      requires IsRing(r) && k.degree >= 1
      ensures Valid() && Key() == k && this.r == r
    {
      this.r := r;
      mac, qsDegree := k.mac, k.degree;
    }

    constructor Clone(other: HDMacVerifier<F>)
      requires other.Valid()
      ensures Valid() && Key() == other.Key() && r == other.r
    {
      r := other.r;
      mac, qsDegree := other.mac, other.qsDegree;
    }

    method AddSubAssign(add: bool, delta: F, other: HDMacVerifier<F>)
      requires Valid() && other.Valid() && other != this && other.r == r
      modifies this
      ensures Valid()
      ensures Key()
           == if add then KeyAdd(r, delta, old(Key()), other.Key()) else KeySub(r, delta, old(Key()), other.Key())
    {
      if other.qsDegree >= qsDegree {
        var lifted := TimesPower(r, mac, delta, other.qsDegree - qsDegree);
        KeyLiftSame(r, delta, other.Key());
        assert lifted == KeyLift(r, delta, Key(), other.qsDegree);
        mac := if add then r.add(lifted, other.mac) else r.Sub(lifted, other.mac);
        qsDegree := other.qsDegree;
      } else {
        var tmp := TimesPower(r, other.mac, delta, qsDegree - other.qsDegree);
        KeyLiftSame(r, delta, Key());
        assert tmp == KeyLift(r, delta, other.Key(), qsDegree);
        mac := if add then r.add(mac, tmp) else r.Sub(mac, tmp);
      }
    }

    method AddAssign(delta: F, other: HDMacVerifier<F>)
      requires Valid() && other.Valid() && other != this && other.r == r
      modifies this
      ensures Valid() && Key() == KeyAdd(r, delta, old(Key()), other.Key())
    {
      AddSubAssign(true, delta, other);
    }

    method SubAssign(delta: F, other: HDMacVerifier<F>)
      requires Valid() && other.Valid() && other != this && other.r == r
      modifies this
      ensures Valid() && Key() == KeySub(r, delta, old(Key()), other.Key())
    {
      AddSubAssign(false, delta, other);
    }

    method AddAssignConstant(delta: F, x: F)
      requires Valid()
      modifies this
      ensures Valid() && Key() == KeyAddCst(r, delta, old(Key()), x)
    {
      var y := TimesPower(r, x, delta, qsDegree);
      mac := r.add(mac, y);
    }

    method SubAssignConstant(delta: F, x: F)
      requires Valid()
      modifies this
      ensures Valid() && Key() == KeySubCst(r, delta, old(Key()), x)
    {
      var y := TimesPower(r, x, delta, qsDegree);
      mac := r.Sub(mac, y);
    }

    method MulAssign(other: HDMacVerifier<F>)
      requires Valid() && other.Valid() && other.r == r
      modifies this
      ensures Valid() && Key() == KeyMul(r, old(Key()), old(other.Key()))
    {
      mac, qsDegree := r.mul(mac, other.mac), qsDegree + other.qsDegree;
    }

    method MulAssignConstant(x: F)
      requires Valid()
      modifies this
      ensures Valid() && Key() == KeyScale(r, x, old(Key()))
    {
      mac := r.mul(x, mac);
    }

    method XorAssign(delta: F, other: HDMacVerifier<F>)
      requires Valid() && other.Valid() && other != this && other.r == r
      modifies this
      ensures Valid() && Key() == KeyXor(r, delta, old(Key()), other.Key())
    {
      var t := new HDMacVerifier.Clone(this);
      t.MulAssign(other);
      t.MulAssignConstant(MinusTwo(r));
      AddAssign(delta, other);
      AddAssign(delta, t);
    }
  }

  method TimesPower<F(!new)>(r: Ring<F>, x: F, delta: F, n: nat) returns (y: F)
    requires IsRing(r)
    ensures y == r.mul(x, Pow(r, delta, n))
  {
    y := x;
    MulOne(r, x);
    for i := 0 to n
      invariant y == r.mul(x, Pow(r, delta, i))
    {
      MulAssoc(r, x, Pow(r, delta, i), delta);
      y := r.mul(y, delta);
    }
  }

  // ---- the states of the check ----

  class QSStateProver<F(!new, ==)> {
    const r: Ring<F>
    const chi: F
    var state: HDMacProver<F>
    var count: nat
    ghost var checked: seq<seq<F>>

    ghost predicate Valid()
      reads this, state
    {
      && IsRing(r) && state.Valid() && state.r == r
      && (forall i :: 0 <= i < |checked| ==> checked[i] != [])
      && count == |checked| && state.Full() == QsState(r, chi, checked)
    }

    constructor (r: Ring<F>, chi: F)
      requires IsRing(r)
      ensures Valid() && fresh(state) && checked == [] && this.r == r && this.chi == chi
    {
      this.r, this.chi := r, chi;
      state := new HDMacProver.Default(r);
      count, checked := 0, [];
    }

    method CheckZero(mp: HDMacProver<F>)
      requires Valid() && mp.Valid() && mp != state && mp.r == r
      requires Value(mp.Full()) == r.zero      // asserted by the program
      modifies this, state
      ensures Valid() && state == old(state) && checked == old(checked) + [mp.Full()]
    {
      state.AddAssign(mp);
      state.MulAssignConstant(chi);
      count := count + 1;
      checked := checked + [mp.Full()];
      assert checked[..|checked| - 1] == old(checked);
    }

    method CheckMult(a: HDMacProver<F>, b: HDMacProver<F>, c: HDMacProver<F>)
      requires Valid() && a.Valid() && b.Valid() && c.Valid() && a.r == b.r == c.r == r
      requires state != a && state != b && state != c
      requires r.mul(Value(a.Full()), Value(b.Full())) == Value(c.Full())
      modifies this, state
      ensures Valid() && state == old(state)
      ensures checked == old(checked) + [HdSub(r, MulSeq(r, a.Full(), b.Full()), c.Full())]
    {
      hide MulSeq, QsState;
      var mp := new HDMacProver.Clone(a);
      mp.MulAssign(b);
      MulValue(r, a.Full(), b.Full());
      SubValue(r, MulSeq(r, a.Full(), b.Full()), c.Full());
      mp.SubAssign(c);
      CheckZero(mp);
    }

    /** Adds the mask to everything but the (vanishing) top coefficient, and starts over. */
    method FinalizeWithMask(mask: seq<F>) returns (proof: seq<F>)
      requires Valid() && |mask| == |QsState(r, chi, checked)| - 1
      requires Value(state.Full()) == r.zero      // asserted by the program
      modifies this
      ensures Valid() && fresh(state) && checked == []
      ensures proof == Proof(r, QsState(r, chi, old(checked)), mask)
    {
      var c := state.poly + Zeros(r, state.qsDegree + 1 - |state.poly|);
      proof := [];
      for i := 0 to |mask|
        invariant |proof| == i && forall j :: 0 <= j < i ==> proof[j] == r.add(mask[j], c[j])
      {
        proof := proof + [r.add(mask[i], c[i])];
      }
      state := new HDMacProver.Default(r);
      count, checked := 0, [];
    }
  }

  lemma SubValue<F(!new)>(r: Ring<F>, a: seq<F>, b: seq<F>)
    requires a != [] && b != [] && Value(a) == Value(b) && IsRing(r)
    ensures Value(HdSub(r, a, b)) == r.zero
  {
    AddNeg(r, Value(a));
  }

  class QSStateVerifier<F(!new, ==)> {
    const r: Ring<F>
    const delta: F
    const chi: F
    var state: HDMacVerifier<F>
    var count: nat
    ghost var checked: seq<HdKey<F>>

    ghost predicate Valid()
      reads this, state
    {
      && IsRing(r) && state.Valid() && state.r == r
      && count == |checked| && state.Key() == QsKey(r, delta, chi, checked)
    }

    constructor (r: Ring<F>, delta: F, chi: F)
      requires IsRing(r)
      ensures Valid() && fresh(state) && checked == [] && this.r == r && this.chi == chi && this.delta == delta
    {
      this.r, this.delta, this.chi := r, delta, chi;
      state := new HDMacVerifier.Default(r);
      count, checked := 0, [];
    }

    method CheckZero(mv: HDMacVerifier<F>)
      requires Valid() && mv.Valid() && mv != state && mv.r == r
      modifies this, state
      ensures Valid() && state == old(state) && checked == old(checked) + [mv.Key()]
    {
      state.AddAssign(delta, mv);
      state.MulAssignConstant(chi);
      count := count + 1;
      checked := checked + [mv.Key()];
      assert checked[..|checked| - 1] == old(checked);
    }

    method CheckMult(a: HDMacVerifier<F>, b: HDMacVerifier<F>, c: HDMacVerifier<F>)
      requires Valid() && a.Valid() && b.Valid() && c.Valid() && a.r == b.r == c.r == r
      requires state != a && state != b && state != c
      modifies this, state
      ensures Valid() && state == old(state)
      ensures checked == old(checked) + [KeySub(r, delta, KeyMul(r, a.Key(), b.Key()), c.Key())]
    {
      var mv := new HDMacVerifier.Clone(a);
      mv.MulAssign(b);
      mv.SubAssign(delta, c);
      CheckZero(mv);
    }

    method FinalizeWithMaskAndVerify(mask: F, proof: seq<F>) returns (ok: bool)
      requires Valid()
      modifies this
      ensures Valid() && fresh(state) && checked == []
      ensures ok <==> Eval(r, proof, delta) == r.add(QsKey(r, delta, chi, old(checked)).mac, mask)
    {
      var value := EvalHorner(r, proof, delta);
      ok := value == r.add(state.mac, mask);
      state := new HDMacVerifier.Default(r);
      count, checked := 0, [];
    }
  }

  /** Horner's rule, from the top coefficient down. */
  method EvalHorner<F(!new)>(r: Ring<F>, c: seq<F>, x: F) returns (y: F)
    requires IsRing(r)
    ensures y == Eval(r, c, x)
  {
    y := r.zero;
    var i := |c|;
    while i > 0
      invariant 0 <= i <= |c| && y == Eval(r, c[i..], x)
    {
      i := i - 1;
      assert c[i..][1..] == c[i + 1..];
      MulComm(r, x, y);
      y := r.add(c[i], r.mul(y, x));
    }
    assert c[0..] == c;
  }

  // ---- the masked end, with masks from the pools ----

  /** One group of random values: their combination is added at hi, that of their macs taken off at lo. */
  method MaskGroup<F(!new, ==)>(fcom: FComProver<F>, hi0: F, lo0: F) returns (hi: F, lo: F)
    requires IsRing(fcom.r) && Productive(fcom.supply)
    modifies fcom
    ensures fcom.used == old(fcom.used) + |fcom.basis|
    ensures var (g, pool) := DrawN(fcom.supply, old(fcom.State()), |fcom.basis|);
            && fcom.State() == pool
            && hi == fcom.r.add(hi0, Dot(fcom.r, fcom.basis, Values(g)))
            && lo == fcom.r.Sub(lo0, Dot(fcom.r, fcom.basis, Macs(g)))
  {
    var r := fcom.r;
    hi, lo := hi0, lo0;
    ghost var g: seq<MacProver<F>> := [];
    NegZero(r);
    AddZero(r, hi0);
    AddZero(r, lo0);
    for i := 0 to |fcom.basis|
      invariant fcom.used == old(fcom.used) + i
      invariant (g, fcom.State()) == DrawN(fcom.supply, old(fcom.State()), i)
      invariant hi == r.add(hi0, Dot(r, fcom.basis[..i], Values(g)))
      invariant lo == r.Sub(lo0, Dot(r, fcom.basis[..i], Macs(g)))
    {
      var u := fcom.Random();
      var x := fcom.basis[i];
      hi := r.add(hi, r.mul(x, u.x));
      lo := r.Sub(lo, r.mul(x, u.m));
      AddAssoc(r, hi0, Dot(r, fcom.basis[..i], Values(g)), r.mul(x, u.x));
      SubTwice(r, lo0, Dot(r, fcom.basis[..i], Macs(g)), r.mul(x, u.m));
      DotGrows(r, fcom.basis[..i], x, g, u);
      assert fcom.basis[..i + 1] == fcom.basis[..i] + [x];
      g := g + [u];
    }
    assert fcom.basis[..|fcom.basis|] == fcom.basis;
  }

  lemma SubTwice<F(!new)>(r: Ring<F>, a: F, b: F, c: F)
    requires IsRing(r)
    ensures r.Sub(r.Sub(a, b), c) == r.Sub(a, r.add(b, c))
  {
    NegAdd(r, b, c);
    AddAssoc(r, a, r.neg(b), r.neg(c));
  }

  method BuildMask<F(!new, ==)>(fcom: FComProver<F>, n: nat) returns (mask: seq<F>)
    requires IsRing(fcom.r) && Productive(fcom.supply)
    modifies fcom
    ensures fcom.used == old(fcom.used) + Times(n, |fcom.basis|)
    ensures var (groups, pool) := DrawGroups(fcom.supply, old(fcom.State()), |fcom.basis|, n);
            fcom.State() == pool && mask == MaskPoly(fcom.r, fcom.basis, groups)
  {
    var r := fcom.r;
    mask := Zeros(r, n + 1);
    ghost var groups := [];
    assert mask == Zeros(r, n) + [r.zero];
    for k := 0 to n
      invariant fcom.used == old(fcom.used) + Times(k, |fcom.basis|)
      invariant (groups, fcom.State()) == DrawGroups(fcom.supply, old(fcom.State()), |fcom.basis|, k)
      invariant mask == Zeros(r, n - k) + MaskPoly(r, fcom.basis, groups)
    {
      var j := n - 1 - k;
      ghost var pool, rest := fcom.State(), MaskPoly(r, fcom.basis, groups);
      ghost var g := DrawN(fcom.supply, pool, |fcom.basis|).0;
      var hi, lo := MaskGroup(fcom, mask[j + 1], mask[j]);
      mask := mask[j + 1 := hi][j := lo];
      UpdateTail(r, j, rest, lo, hi);
      AddZero(r, r.neg(Dot(r, fcom.basis, Macs(g))));
      MaskPolyStep(r, fcom.basis, groups, g);
      DrawGroupsStep(fcom.supply, old(fcom.State()), |fcom.basis|, k, groups, pool, g, fcom.State());
      groups := groups + [g];
    }
    assert Zeros(r, 0) + mask == mask;
  }

  lemma UpdateTail<F>(r: Ring<F>, j: nat, rest: seq<F>, lo: F, hi: F)
    requires rest != []
    ensures (Zeros(r, j + 1) + rest)[j + 1 := hi][j := lo] == Zeros(r, j) + ([lo] + [hi] + rest[1..])
  {
  }

  method MaskKeyGroup<F(!new, ==)>(fcom: FComVerifier<F>, mask0: F) returns (mask: F)
    requires IsRing(fcom.r) && Productive(fcom.supply)
    modifies fcom
    ensures fcom.used == old(fcom.used) + |fcom.basis|
    ensures var (g, pool) := DrawN(fcom.supply, old(fcom.State()), |fcom.basis|);
            fcom.State() == pool && mask == fcom.r.Sub(mask0, Dot(fcom.r, fcom.basis, Keys(g)))
  {
    var r := fcom.r;
    mask := mask0;
    ghost var g: seq<MacVerifier<F>> := [];
    NegZero(r);
    AddZero(r, mask0);
    for i := 0 to |fcom.basis|
      invariant fcom.used == old(fcom.used) + i
      invariant (g, fcom.State()) == DrawN(fcom.supply, old(fcom.State()), i)
      invariant mask == r.Sub(mask0, Dot(r, fcom.basis[..i], Keys(g)))
    {
      var v := fcom.Random();
      var x := fcom.basis[i];
      mask := r.Sub(mask, r.mul(x, v.k));
      SubTwice(r, mask0, Dot(r, fcom.basis[..i], Keys(g)), r.mul(x, v.k));
      assert fcom.basis[..i + 1][..i] == fcom.basis[..i];
      assert Keys(g + [v])[..i] == Keys(g);
      g := g + [v];
    }
    assert fcom.basis[..|fcom.basis|] == fcom.basis;
  }

  method BuildMaskKey<F(!new, ==)>(fcom: FComVerifier<F>, n: nat) returns (mask: F)
    requires IsRing(fcom.r) && Productive(fcom.supply)
    modifies fcom
    ensures fcom.used == old(fcom.used) + Times(n, |fcom.basis|)
    ensures var (groups, pool) := DrawGroups(fcom.supply, old(fcom.State()), |fcom.basis|, n);
            fcom.State() == pool && mask == MaskKey(fcom.r, fcom.delta, fcom.basis, groups)
  {
    var r := fcom.r;
    mask := r.zero;
    ghost var groups := [];
    for k := 0 to n
      invariant fcom.used == old(fcom.used) + Times(k, |fcom.basis|)
      invariant (groups, fcom.State()) == DrawGroups(fcom.supply, old(fcom.State()), |fcom.basis|, k)
      invariant mask == MaskKey(r, fcom.delta, fcom.basis, groups)
    {
      ghost var pool := fcom.State();
      ghost var g := DrawN(fcom.supply, pool, |fcom.basis|).0;
      mask := MaskKeyGroup(fcom, r.mul(mask, fcom.delta));
      MaskKeyStep(r, fcom.delta, fcom.basis, groups, g);
      DrawGroupsStep(fcom.supply, old(fcom.State()), |fcom.basis|, k, groups, pool, g, fcom.State());
      groups := groups + [g];
    }
  }

  /** Matching pools give a mask polynomial and a mask key that belong together. */
  method RunMask<F(!new, ==)>(p: FComProver<F>, v: FComVerifier<F>, n: nat) returns (mask: seq<F>, maskKey: F)
    requires Linked(p, v)
    modifies p, v
    ensures Linked(p, v) && |mask| == n + 1 && Eval(p.r, mask, v.delta) == maskKey
    ensures mask == DeliveredMask(p.r, p.basis, p.supply, old(p.used), n)
    ensures p.used == old(p.used) + Times(n, |p.basis|) && v.used == old(v.used) + Times(n, |p.basis|)
  {
    hide DrawN, DrawGroups, MaskPoly, Eval, AuthGroups, MaskKey, Draw;
    hide p.Counted;
    CountedState(p);
    ghost var us, vs := DrawGroups(p.supply, p.State(), |p.basis|, n).0,
    DrawGroups(v.supply, v.State(), |p.basis|, n).0;
    DrawGroupsCorrelated(p.r, v.delta, p.prime, p.basis, p.supply, p.State(), v.supply, v.State(), n);
    GroupsNumbered(p.supply, p.used, |p.basis|, n);
    MaskAuth(p.r, v.delta, p.basis, us, vs);
    mask := BuildMask(p, n);
    maskKey := BuildMaskKey(v, n);
    StillCounted(p);
  }

  /** The end of a check in which only zeros were checked: accepted, on a message about exactly these checks, with the
      pools still matched and (degree - 1) * |basis| random values consumed on each side. */
  method RunFinalize<F(!new, ==)>(sp: QSStateProver<F>, sv: QSStateVerifier<F>, p: FComProver<F>, v: FComVerifier<F>)
    returns (ok: bool, proof: seq<F>)
    requires sp.Valid() && sv.Valid() && Linked(p, v)
    requires sp.r == sv.r == p.r && sp.chi == sv.chi && sv.delta == v.delta
    requires HdAuthAll(p.r, v.delta, sp.checked, sv.checked) && AllZero(p.r, ClearValues(sp.checked))
    modifies sp, sv, p, v
    ensures ok && proof == DeliveredProof(p.r, p.basis, p.supply, old(p.used), sp.chi, old(sp.checked))
    ensures sp.Valid() && sv.Valid() && fresh(sp.state) && fresh(sv.state) && sp.checked == [] && sv.checked == []
    ensures Linked(p, v)
    ensures var n := Times(old(sp.state.qsDegree) - 1, |p.basis|);
            p.used == old(p.used) + n && v.used == old(v.used) + n
  {
    hide QsState, QsKey, Eval, Linked, MaskPoly, Dot;
    ghost var r, cs, ks := p.r, sp.checked, sv.checked;
    QsStateAuth(r, v.delta, sp.chi, cs, ks);
    var mask, maskKey := RunMask(p, v, sp.state.qsDegree - 1);
    QsComplete(r, v.delta, sp.chi, cs, ks, mask, maskKey);
    proof := sp.FinalizeWithMask(mask);
    ok := sv.FinalizeWithMaskAndVerify(maskKey, proof);
  }
}
