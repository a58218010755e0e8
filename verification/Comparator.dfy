/** Comparing authenticated bits with a public number, and the conversions between field values and their bits. */
module Comparator {
  import opened Options
  import opened Rings
  import opened Sums
  import opened Arith
  import opened PrimeField
  import opened Bits
  import opened Homcom
  import opened QuickSilver
  import opened Backend
  import opened EdabitConversion

  // ---- the recurrence, from the most significant bit down ----

  function NextAct<F>(r: Ring<F>, act: F, a: F, b: F): F {
    r.mul(act, r.add(r.one, r.add(b, a)))
  }

  function NextResult<F>(r: Ring<F>, act: F, res: F, a: F, b: F): F {
    r.add(res, r.mul(r.add(r.one, res), r.mul(act, r.mul(r.add(b, r.one), a))))
  }

  /** (act, r) after the i highest positions of a and b. */
  function Scan<F>(r: Ring<F>, a: seq<F>, b: seq<F>, i: nat): (F, F)
    requires i <= |a| == |b|
  {
    if i == 0 then (r.one, r.zero)
    else
      var (act, res) := Scan(r, a, b, i - 1);
      var k := |a| - i;
      (NextAct(r, act, a[k], b[k]), NextResult(r, act, res, a[k], b[k]))
  }

  lemma ScanStep<F(!new)>(r: Ring<F>, act: F, res: F, a: F, b: F)
    requires IsBinary(r) && IsBit(r, act) && IsBit(r, res) && IsBit(r, a) && IsBit(r, b)
    ensures IsBit(r, NextAct(r, act, a, b)) && IsBit(r, NextResult(r, act, res, a, b))
    ensures NextAct(r, act, a, b) == r.one <==> act == r.one && a == b
    ensures NextResult(r, act, res, a, b) == r.one <==> res == r.one || (act == r.one && a == r.one && b == r.zero)
  {
    BinaryTables(r);
    hide IsRing;
  }

  /** act says that the two numbers agree so far, r that a is already larger. */
  lemma {:induction false} ScanMeans<F(!new)>(r: Ring<F>, a: seq<F>, b: seq<F>, i: nat)
    requires IsBinary(r) && i <= |a| == |b| && AreBits(r, a) && AreBits(r, b)
    ensures var (act, res) := Scan(r, a, b, i);
            var high, bound := BitsValue(r, a[|a| - i..]), BitsValue(r, b[|b| - i..]);
            && IsBit(r, act) && IsBit(r, res)
            && (act == r.one <==> high == bound) && (res == r.one <==> high > bound)
  {
    hide IsRing, BitsValue, NextAct, NextResult;
    if i == 0 {
      assert a[|a|..] == [] && b[|b|..] == [];
    } else {
      ScanMeans(r, a, b, i - 1);
      var k := |a| - i;
      var (act, res) := Scan(r, a, b, i - 1);
      ScanStep(r, act, res, a[k], b[k]);
      assert a[k..][1..] == a[k + 1..] && b[k..][1..] == b[k + 1..];
      BitsValueFront(r, a[k..]);
      BitsValueFront(r, b[k..]);
    }
  }

  /** For every length, the recurrence ends with r = 0 exactly when a <= b. */
  lemma ComparesExactly<F(!new)>(r: Ring<F>, a: seq<F>, b: seq<F>)
    requires IsBinary(r) && |a| == |b| && AreBits(r, a) && AreBits(r, b)
    ensures Scan(r, a, b, |a|).1 == r.zero <==> BitsValue(r, a) <= BitsValue(r, b)
  {
    ScanMeans(r, a, b, |a|);
    assert a[0..] == a && b[0..] == b;
  }

  // ---- canonical bits ----

  /** Against p - 1, the comparator singles out the one canonical decomposition among all that represent x. */
  lemma CanonicalBits<F(!new)>(r: Ring<F>, bits: seq<F>, x: Fp)
    requires IsBinary(r) && AreBits(r, bits) && P <= Pow2(|bits|)
    ensures var n := |bits|;
            && AreBits(r, Binary(r, P - 1, n)) && BitsValue(r, Binary(r, P - 1, n)) == P - 1
            && var passes := Scan(r, bits, Binary(r, P - 1, n), n).1 == r.zero;
               ToFp(BitsValue(r, bits)) == x && passes <==> bits == Binary(r, x, n)
  {
    hide BitsValue, Scan, Binary;
    var n := |bits|;
    BinaryValue(r, P - 1, n);
    BinaryValue(r, x, n);
    ComparesExactly(r, bits, Binary(r, P - 1, n));
    ToFpSmall(x);
    if BitsValue(r, bits) < P && ToFp(BitsValue(r, bits)) == x {
      ToFpSmall(BitsValue(r, bits));
      BitsValueInjective(r, bits, Binary(r, x, n));
    }
  }

  /** Without the comparator there can be another one: with n bits, the bits of x + p also represent x. */
  lemma SecondDecomposition<F(!new)>(r: Ring<F>, x: Fp, n: nat)
    requires IsBinary(r) && x + P < Pow2(n)
    ensures var bits := Binary(r, x + P, n);
            && AreBits(r, bits) && ToFp(BitsValue(r, bits)) == x && bits != Binary(r, x, n)
  {
    BinaryValue(r, x + P, n);
    BinaryValue(r, x, n);
    Congruent(x + P, x, 1);
    ToFpSmall(x);
  }

  // ---- the same recurrence on a prover's wires, as a reference ----

  /** The wire that says whether a bit equals b, and the one that says whether it is above b. */
  function SameP<F>(r: Ring<F>, a: MacProver<F>, b: F): MacProver<F> {
    AddCstP(r, r.one, AddCstP(r, b, a))
  }

  function OverP<F>(r: Ring<F>, a: MacProver<F>, b: F): MacProver<F> {
    MulCstP(r, r.add(b, r.one), a)
  }

  /** A product of two wires, committed with a random value. */
  function ProductP<F>(r: Ring<F>, a: MacProver<F>, b: MacProver<F>, us: seq<MacProver<F>>): MacProver<F> {
    Committed(r.mul(a.x, b.x), us)
  }

  /** The wires for act and r, and the products queued for the multiplication check. */
  datatype Scanned<F> = Scanned(act: MacProver<F>, res: MacProver<F>, pushed: seq<TripleP<F>>)

  /** After i positions, with three values of the supply for each, numbered from `from` on. */
  ghost function ScanP<F>(r: Ring<F>, supply: nat -> seq<MacProver<F>>, from: nat, a: seq<MacProver<F>>, b: seq<F>,
                          i: nat): Scanned<F>
    requires i <= |a| == |b|
  {
    if i == 0 then Scanned(MacProver(r.one, r.zero), MacProver(r.zero, r.zero), [])
    else
      ScanStepP(r, supply, from + 3 * (i - 1), ScanP(r, supply, from, a, b, i - 1), a[|a| - i], b[|a| - i])
  }

  ghost function ScanStepP<F>(r: Ring<F>, supply: nat -> seq<MacProver<F>>, u: nat, s: Scanned<F>, a: MacProver<F>,
                              b: F): Scanned<F>
  {
    var same, over, room := SameP(r, a, b), OverP(r, a, b), AddCstP(r, r.one, s.res);
    var act := ProductP(r, s.act, same, Delivered(supply, u, 1));
    var live := ProductP(r, s.act, over, Delivered(supply, u + 1, 1));
    var more := ProductP(r, room, live, Delivered(supply, u + 2, 1));
    Scanned(act, AddP(r, s.res, more), s.pushed + [(s.act, same, act), (s.act, over, live), (room, live, more)])
  }

  /** The queue of asserted wires after one more, and the message if that flushes it. */
  ghost function Pending<F>(s: Setting<F>, chis: nat -> seq<F>, before: seq<MacProver<F>>,
                            w: MacProver<F>): (seq<MacProver<F>>, Option<F>)
  {
    var queue := before + [w];
    if |queue| == QUEUE_CAPACITY || s.noBatching then ([], Some(ZeroMac(s.r, chis, queue))) else (queue, None)
  }

  // ---- both parties ----

  method RunLocal<F(!new, ==)>(p: DmcProver<F>, v: DmcVerifier<F>, ps: seq<MacProver<F>>, vs: seq<MacVerifier<F>>,
                               g: Gate<F>)
    returns (w: MacProver<F>, k: MacVerifier<F>)
    requires Synced(p, v) && p.isOk && v.isOk && AuthAll(p.fcom.r, v.fcom.delta, ps, vs) && GateOk(|ps|, g) && Local(g)
    ensures Auth(p.fcom.r, v.fcom.delta, w, k) && w.x == GateValue(p.fcom.r, Values(ps), g)
    ensures w == LocalP(p.fcom.r, ps, g)
  {
    hide Synced, IsRing, Auth;
    SyncedRing(p, v);
    LocalAuth(p.fcom.r, v.fcom.delta, ps, vs, g);
    var wp := p.LocalGate(ps, g);
    var wv := v.LocalGate(vs, g);
    w, k := wp.value, wv.value;
  }

  /** A wire asserted to be zero. */
  method RunPending<F(!new, ==)>(p: DmcProver<F>, v: DmcVerifier<F>, chis: nat -> seq<F>, ghost asserted: seq<F>,
                                 w: MacProver<F>, k: MacVerifier<F>) returns (ok: bool, sent: Option<F>)
    requires Synced(p, v) && p.isOk && v.isOk && Seeded(chis) && Queued(p.fcom.r, asserted, p.checkZeroList)
    requires Auth(p.fcom.r, v.fcom.delta, w, k)
    modifies p`isOk, p`checkZeroList, p`monitorZero, p`monitorZeroChecked, v`isOk, v`checkZeroList
    ensures Synced(p, v) && p.isOk == ok
    ensures (p.checkZeroList, sent) == Pending(SettingOf(p), chis, old(p.checkZeroList), w)
    ensures !ok ==> !AllZero(p.fcom.r, asserted + [w.x])
    ensures ok ==> v.isOk && Queued(p.fcom.r, asserted + [w.x], p.checkZeroList)
  {
    hide Synced, Queued, AllZero, Auth, ZeroMac;
    ok, sent := RunAssertZero(p, v, chis, asserted, w, k);
  }

  /** Whether all bits so far were equal. */
  method RunNextAct<F(!new, ==)>(p: DmcProver<F>, v: DmcVerifier<F>, act: MacProver<F>, actKey: MacVerifier<F>,
                                 a: MacProver<F>, aKey: MacVerifier<F>, b: F)
    returns (act': MacProver<F>, actKey': MacVerifier<F>)
    requires Synced(p, v) && p.isOk && v.isOk
    requires Auth(p.fcom.r, v.fcom.delta, act, actKey) && Auth(p.fcom.r, v.fcom.delta, a, aKey)
    modifies p`monitorMul, p.fcom, p.state, v.fcom, v.state
    ensures Synced(p, v) && Auth(p.fcom.r, v.fcom.delta, act', actKey')
    ensures act'.x == NextAct(p.fcom.r, act.x, a.x, b)
    ensures act' == ProductP(p.fcom.r, act, SameP(p.fcom.r, a, b), Delivered(p.fcom.supply, old(p.fcom.used), 1))
    ensures p.state.pushed == old(p.state.pushed) + [(act, SameP(p.fcom.r, a, b), act')]
    ensures p.fcom.used == old(p.fcom.used) + 1 && v.fcom.used == old(v.fcom.used) + 1
  {
    hide Synced, IsRing, Auth, Delivered, AddCstP;
    var sum, sumKey := RunLocal(p, v, [a], [aKey], AddConstant(0, b));
    var same, sameKey := RunLocal(p, v, [sum], [sumKey], AddConstant(0, p.fcom.r.one));
    act', actKey' := RunMul(p, v, act, same, actKey, sameKey);
  }

  /** Whether a has been seen to be larger. */
  method RunNextResult<F(!new, ==)>(p: DmcProver<F>, v: DmcVerifier<F>, act: MacProver<F>, actKey: MacVerifier<F>,
                                    res: MacProver<F>, resKey: MacVerifier<F>, a: MacProver<F>, aKey: MacVerifier<F>,
                                    b: F)
    returns (res': MacProver<F>, resKey': MacVerifier<F>)
    requires Synced(p, v) && p.isOk && v.isOk
    requires Auth(p.fcom.r, v.fcom.delta, act, actKey) && Auth(p.fcom.r, v.fcom.delta, res, resKey)
    requires Auth(p.fcom.r, v.fcom.delta, a, aKey)
    modifies p`monitorMul, p.fcom, p.state, v.fcom, v.state
    ensures Synced(p, v) && Auth(p.fcom.r, v.fcom.delta, res', resKey')
    ensures res'.x == NextResult(p.fcom.r, act.x, res.x, a.x, b)
    ensures var over, room := OverP(p.fcom.r, a, b), AddCstP(p.fcom.r, p.fcom.r.one, res);
            var live := ProductP(p.fcom.r, act, over, Delivered(p.fcom.supply, old(p.fcom.used), 1));
            var more := ProductP(p.fcom.r, room, live, Delivered(p.fcom.supply, old(p.fcom.used) + 1, 1));
            && res' == AddP(p.fcom.r, res, more)
            && p.state.pushed == old(p.state.pushed) + [(act, over, live), (room, live, more)]
    ensures p.fcom.used == old(p.fcom.used) + 2 && v.fcom.used == old(v.fcom.used) + 2
  {
    hide Synced, IsRing, Auth, Delivered, AddCstP, MulCstP, AddP;
    var room, roomKey := RunLocal(p, v, [res], [resKey], AddConstant(0, p.fcom.r.one));
    var over, overKey := RunLocal(p, v, [a], [aKey], MulConstant(0, p.fcom.r.add(b, p.fcom.r.one)));
    var live, liveKey := RunMul(p, v, act, over, actKey, overKey);
    var more, moreKey := RunMul(p, v, room, live, roomKey, liveKey);
    res', resKey' := RunLocal(p, v, [res, more], [resKey, moreKey], Add(0, 1));
  }

  /** One position of `less_eq_than_with_public2`. */
  method RunStep<F(!new, ==)>(p: DmcProver<F>, v: DmcVerifier<F>, act: MacProver<F>, actKey: MacVerifier<F>,
                              res: MacProver<F>, resKey: MacVerifier<F>, a: MacProver<F>, aKey: MacVerifier<F>, b: F)
    returns (act': MacProver<F>, actKey': MacVerifier<F>, res': MacProver<F>, resKey': MacVerifier<F>)
    requires Synced(p, v) && p.isOk && v.isOk
    requires Auth(p.fcom.r, v.fcom.delta, act, actKey) && Auth(p.fcom.r, v.fcom.delta, res, resKey)
    requires Auth(p.fcom.r, v.fcom.delta, a, aKey)
    modifies p`monitorMul, p.fcom, p.state, v.fcom, v.state
    ensures Synced(p, v) && Auth(p.fcom.r, v.fcom.delta, act', actKey') && Auth(p.fcom.r, v.fcom.delta, res', resKey')
    ensures act'.x == NextAct(p.fcom.r, act.x, a.x, b) && res'.x == NextResult(p.fcom.r, act.x, res.x, a.x, b)
    ensures var s := ScanStepP(p.fcom.r, p.fcom.supply, old(p.fcom.used), Scanned(act, res, old(p.state.pushed)), a, b);
            Scanned(act', res', p.state.pushed) == s
    ensures p.fcom.used == old(p.fcom.used) + 3 && v.fcom.used == old(v.fcom.used) + 3
  {
    hide Synced, IsRing, Auth, NextAct, NextResult, Delivered, ProductP, SameP, OverP, AddCstP, AddP;
    act', actKey' := RunNextAct(p, v, act, actKey, a, aKey, b);
    res', resKey' := RunNextResult(p, v, act, actKey, res, resKey, a, aKey, b);
  }

  /** With products queued before. */
  function After<F>(pushed: seq<TripleP<F>>, s: Scanned<F>): Scanned<F> {
    Scanned(s.act, s.res, pushed + s.pushed)
  }

  lemma StepAfter<F>(r: Ring<F>, supply: nat -> seq<MacProver<F>>, u: nat, pushed: seq<TripleP<F>>, s: Scanned<F>,
                     a: MacProver<F>, b: F)
    ensures ScanStepP(r, supply, u, After(pushed, s), a, b) == After(pushed, ScanStepP(r, supply, u, s, a, b))
  {
    hide Delivered, ProductP, SameP, OverP, AddCstP, AddP;
  }

  /** All positions of `less_eq_than_with_public2`, from the highest down. */
  method RunScan<F(!new, ==)>(p: DmcProver<F>, v: DmcVerifier<F>, a: seq<MacProver<F>>, aKeys: seq<MacVerifier<F>>,
                              b: seq<F>) returns (res: MacProver<F>, resKey: MacVerifier<F>)
    requires Synced(p, v) && p.isOk && v.isOk && AuthAll(p.fcom.r, v.fcom.delta, a, aKeys) && |b| == |a|
    modifies p`monitorMul, p.fcom, p.state, v.fcom, v.state
    ensures Synced(p, v) && Auth(p.fcom.r, v.fcom.delta, res, resKey)
    ensures |Values(a)| == |a| && res.x == Scan(p.fcom.r, Values(a), b, |a|).1
    ensures var s := ScanP(p.fcom.r, p.fcom.supply, old(p.fcom.used), a, b, |a|);
            p.state.pushed == old(p.state.pushed) + s.pushed && res == s.res
    ensures p.fcom.used == old(p.fcom.used) + 3 * |a| && v.fcom.used == old(v.fcom.used) + 3 * |a|
  {
    hide Synced, Auth, NextAct, NextResult, Delivered, ScanStepP, Productive;
    ghost var r, from, pushed := p.fcom.r, p.fcom.used, p.state.pushed;
    var act, actKey := RunLocal(p, v, [], [], Public(p.fcom.r.one));
    res, resKey := RunLocal(p, v, [], [], Public(p.fcom.r.zero));
    var l := |a|;
    for i := 0 to l
      invariant Synced(p, v) && p.isOk && v.isOk
      invariant Auth(r, v.fcom.delta, act, actKey) && Auth(r, v.fcom.delta, res, resKey)
      invariant (act.x, res.x) == Scan(r, Values(a), b, i)
      invariant Scanned(act, res, p.state.pushed) == After(pushed, ScanP(r, p.fcom.supply, from, a, b, i))
      invariant p.fcom.used == old(p.fcom.used) + 3 * i && v.fcom.used == old(v.fcom.used) + 3 * i
    {
      StepAfter(r, p.fcom.supply, from + 3 * i, pushed, ScanP(r, p.fcom.supply, from, a, b, i), a[l - i - 1],
                b[l - i - 1]);
      act, actKey, res, resKey := RunStep(p, v, act, actKey, res, resKey, a[l - i - 1], aKeys[l - i - 1], b[l - i - 1]);
    }
  }

  /** Asserts that the authenticated number is at most the public one: what is asserted to be zero is zero exactly
      when it is, whatever bits were committed. */
  method RunLessEq<F(!new, ==)>(p: DmcProver<F>, v: DmcVerifier<F>, chis: nat -> seq<F>, ghost asserted: seq<F>,
                                a: seq<MacProver<F>>, aKeys: seq<MacVerifier<F>>, b: seq<F>)
    returns (ok: bool, ghost last: F, sent: Option<F>)
    requires Synced(p, v) && p.isOk && v.isOk && Seeded(chis) && Queued(p.fcom.r, asserted, p.checkZeroList)
    requires IsBinary(p.fcom.r) && AuthAll(p.fcom.r, v.fcom.delta, a, aKeys) && |b| == |a|
    requires AreBits(p.fcom.r, Values(a)) && AreBits(p.fcom.r, b)
    modifies p, p.fcom, p.state, v, v.fcom, v.state
    ensures Synced(p, v) && p.isOk == ok
    ensures last == p.fcom.r.zero <==> BitsValue(p.fcom.r, Values(a)) <= BitsValue(p.fcom.r, b)
    ensures ok ==> v.isOk && Queued(p.fcom.r, asserted + [last], p.checkZeroList)
    ensures !ok ==> !AllZero(p.fcom.r, asserted + [last])
    ensures var s := ScanP(p.fcom.r, p.fcom.supply, old(p.fcom.used), a, b, |a|);
            && p.state.pushed == old(p.state.pushed) + s.pushed && last == s.res.x
            && (p.checkZeroList, sent) == Pending(SettingOf(p), chis, old(p.checkZeroList), s.res)
    ensures p.fcom.used == old(p.fcom.used) + 3 * |a| && v.fcom.used == old(v.fcom.used) + 3 * |a|
  {
    hide Synced, IsBinary, AreBits, AuthAll, Queued, AllZero, Auth, ScanP, Scan, Pending, BitsValue, SettingOf, Values;
    var res, resKey := RunScan(p, v, a, aKeys, b);
    last := res.x;
    ComparesExactly(p.fcom.r, Values(a), b);
    ok, sent := RunPending(p, v, chis, asserted, res, resKey);
  }

  /** `assert_conv_to_bits` by an honest prover: the bits handed on are the canonical ones, they form a consistent
      edaBit with the wire, and what is asserted on the way is zero. */
  method RunConvToBits<F(!new, ==)>(p2: DmcProver<F>, v2: DmcVerifier<F>, chis: nat -> seq<F>, ghost asserted: seq<F>,
                                    ghost delta: Fp, a: MacProver<Fp>, aKey: MacVerifier<Fp>, n: nat)
    returns (ok: bool, e: EdabitP<F>, f: EdabitV<F>, sent: Option<F>)
    requires Synced(p2, v2) && p2.isOk && v2.isOk && Seeded(chis) && Queued(p2.fcom.r, asserted, p2.checkZeroList)
    requires IsBinary(p2.fcom.r) && P <= Pow2(n) && Auth(FP, delta, a, aKey)
    modifies p2, p2.fcom, p2.state, v2, v2.fcom, v2.state
    ensures Synced(p2, v2) && p2.isOk == ok
    ensures AuthEdabit(p2.fcom.r, v2.fcom.delta, delta, e, f) && e.value == a && f.value == aKey
    ensures Values(e.bits) == Binary(p2.fcom.r, a.x, n) && TupleDiscrepancy(p2.fcom.r, e) == 0
    ensures ok ==> v2.isOk && Queued(p2.fcom.r, asserted + [p2.fcom.r.zero], p2.checkZeroList)
    ensures e.bits == CommitAll(Binary(p2.fcom.r, a.x, n), Delivered(p2.fcom.supply, old(p2.fcom.used), n))
    ensures |e.bits| == n
            && var s := ScanP(p2.fcom.r, p2.fcom.supply, old(p2.fcom.used) + n, e.bits, Binary(p2.fcom.r, P - 1, n), n);
            && p2.state.pushed == old(p2.state.pushed) + s.pushed
            && (p2.checkZeroList, sent) == Pending(SettingOf(p2), chis, old(p2.checkZeroList), s.res)
    ensures p2.fcom.used == old(p2.fcom.used) + 4 * n && v2.fcom.used == old(v2.fcom.used) + 4 * n
    ensures !ok ==> !AllZero(p2.fcom.r, asserted + [p2.fcom.r.zero])
  {
    hide IsRing, IsBinary, AreBits, Queued, AllZero, Auth, AuthAll, AuthTriples, BitsValue, Binary, AllCorrect,
         Correlated, Synced, TupleDiscrepancy, Delivered, ScanP, Pending, CommitAll;
    ghost var r := p2.fcom.r;
    BinaryTwo(r);
    BinaryValue(r, a.x, n);
    BinaryValue(r, P - 1, n);
    var bits, keys := RunInputs(p2, v2, Binary(p2.fcom.r, a.x, n));
    ghost var last;
    ok, last, sent := RunLessEq(p2, v2, chis, asserted, bits, keys, Binary(p2.fcom.r, P - 1, n));
    e, f := EdabitP(bits, a), EdabitV(keys, aKey);
    Canonical(a.x);
    NoDiscrepancy(r, e);
  }

  lemma NoDiscrepancy<F(!new)>(r: Ring<F>, e: EdabitP<F>)
    requires ToFp(BitsValue(r, Values(e.bits))) == e.value.x
    ensures TupleDiscrepancy(r, e) == 0
  {
    FpLaws1(e.value.x);
  }

  lemma BinaryTwo<F(!new)>(r: Ring<F>)
    requires IsBinary(r)
    ensures r.zero != r.one
  {
  }

  method RunInputs<F(!new, ==)>(p: DmcProver<F>, v: DmcVerifier<F>, xs: seq<F>)
    returns (ps: seq<MacProver<F>>, vs: seq<MacVerifier<F>>)
    requires Synced(p, v)
    modifies p.fcom, v.fcom
    ensures Synced(p, v) && AuthAll(p.fcom.r, v.fcom.delta, ps, vs) && Values(ps) == xs && |ps| == |xs|
    ensures ps == CommitAll(xs, Delivered(p.fcom.supply, old(p.fcom.used), |xs|))
    ensures p.fcom.used == old(p.fcom.used) + |xs| && v.fcom.used == old(v.fcom.used) + |xs|
  {
    hide IsRing, Auth, AuthTriples, AllCorrect, Correlated;
    ps, vs := RunInput(p.fcom, v.fcom, xs);
  }

  // ---- from bits ----

  /** A bit wire: committed, or public. */
  datatype BitP<F> = BitProver(m: MacProver<F>) | PublicBitP(b: F)
  {
    function Clear(): F {
      if BitProver? then m.x else b
    }
  }

  datatype BitV<F> = BitVerifier(k: MacVerifier<F>) | PublicBitV(b: F)

  ghost predicate BitsAgree<F>(r: Ring<F>, delta: F, xs: seq<BitP<F>>, ys: seq<BitV<F>>) {
    && |xs| == |ys|
    && forall i :: 0 <= i < |xs| ==>
         && IsBit(r, xs[i].Clear()) && (xs[i].BitProver? <==> ys[i].BitVerifier?)
         && if xs[i].BitProver? then Auth(r, delta, xs[i].m, ys[i].k) else xs[i].b == ys[i].b
  }

  ghost function ClearBits<F>(xs: seq<BitP<F>>): seq<F> {
    seq(|xs|, i requires 0 <= i < |xs| => xs[i].Clear())
  }

  /** Only a public bit takes a random value. */
  function Commits<F>(x: BitP<F>): nat {
    if x.BitProver? then 0 else 1
  }

  /** The wires of the bits so far, the number of values used, the queue of asserted wires, and what was sent. */
  datatype Converted<F> = Converted(bits: seq<MacProver<F>>, used: nat, queue: seq<MacProver<F>>, sent: seq<Option<F>>)

  ghost function NextConverted<F>(s: Setting<F>, chis: nat -> seq<F>, x: BitP<F>, c: Converted<F>): Converted<F> {
    if x.BitProver? then Converted(c.bits + [x.m], c.used, c.queue, c.sent + [None])
    else
      var m := Committed(x.b, Delivered(s.supply, c.used, 1));
      var (queue, sent) := Pending(s, chis, c.queue, AddCstP(s.r, x.b, m));
      Converted(c.bits + [m], c.used + 1, queue, c.sent + [sent])
  }

  /** The first i bits, one after the other. */
  ghost function ConvertedBits<F>(s: Setting<F>, challenges: nat -> nat -> seq<F>, xs: seq<BitP<F>>,
                                  start: Converted<F>, i: nat): Converted<F>
    requires i <= |xs|
  {
    if i == 0 then start
    else NextConverted(s, challenges(i - 1), xs[i - 1], ConvertedBits(s, challenges, xs, start, i - 1))
  }

  /** One bit: a public one is committed to, and asserted to be what it is. */
  method RunBit<F(!new, ==)>(p2: DmcProver<F>, v2: DmcVerifier<F>, chis: nat -> seq<F>, ghost asserted: seq<F>,
                             x: BitP<F>, y: BitV<F>)
    returns (ok: bool, m: MacProver<F>, k: MacVerifier<F>, ghost asserted': seq<F>, sent: Option<F>)
    requires Synced(p2, v2) && p2.isOk && v2.isOk && Seeded(chis) && Queued(p2.fcom.r, asserted, p2.checkZeroList)
    requires IsBinary(p2.fcom.r) && BitsAgree(p2.fcom.r, v2.fcom.delta, [x], [y])
    modifies p2, p2.fcom, p2.state, v2, v2.fcom, v2.state
    ensures Synced(p2, v2) && p2.isOk == ok && Auth(p2.fcom.r, v2.fcom.delta, m, k) && m.x == x.Clear()
    ensures AllZero(p2.fcom.r, asserted') <==> AllZero(p2.fcom.r, asserted)
    ensures x.BitProver? ==> m == x.m && sent == None && p2.checkZeroList == old(p2.checkZeroList)
    ensures x.PublicBitP? ==>
      && m == Committed(x.b, Delivered(p2.fcom.supply, old(p2.fcom.used), 1))
      && (p2.checkZeroList, sent) == Pending(SettingOf(p2), chis, old(p2.checkZeroList), AddCstP(p2.fcom.r, x.b, m))
    ensures p2.state.pushed == old(p2.state.pushed) && p2.fcom.used == old(p2.fcom.used) + Commits(x)
    ensures v2.fcom.used == old(v2.fcom.used) + Commits(x)
    ensures !ok ==> !AllZero(p2.fcom.r, asserted)
    ensures ok ==> v2.isOk && Queued(p2.fcom.r, asserted', p2.checkZeroList)
  {
    hide Synced, IsRing, Queued, Auth, AllZero, AuthAll, IsBinary, Delivered, AddCstP, Pending, SettingOf;
    assert ([x])[0] == x && ([y])[0] == y;
    ok, asserted', sent := true, asserted, None;
    if x.BitProver? {
      m, k := x.m, y.k;
    } else {
      m, k := RunPrivate(p2, v2, x.b);
      LocalPair(p2.fcom.r, v2.fcom.delta, m, k);
      var hope, hopeKey := RunLocal(p2, v2, [m], [k], AddConstant(0, x.b));
      SelfInverse(p2.fcom.r, x.b);
      ok, sent := RunPending(p2, v2, chis, asserted, hope, hopeKey);
      asserted' := asserted + [hope.x];
      OneMoreZero(p2.fcom.r, asserted, hope.x);
    }
  }

  lemma LocalPair<F(!new)>(r: Ring<F>, delta: F, m: MacProver<F>, k: MacVerifier<F>)
    requires Auth(r, delta, m, k)
    ensures AuthAll(r, delta, [m], [k])
  {
  }

  lemma OneMoreZero<F(!new)>(r: Ring<F>, xs: seq<F>, x: F)
    requires x == r.zero
    ensures AllZero(r, xs + [x]) <==> AllZero(r, xs)
  {
    assert forall i :: 0 <= i < |xs| ==> (xs + [x])[i] == xs[i];
  }

  /** `assert_conv_from_bits`: any number of bits, committed or public, gives a wire that forms a consistent edaBit
      with them; nothing that is not zero is asserted on the way. */
  method RunConvFromBits<F(!new, ==)>(p: DmcProver<Fp>, v: DmcVerifier<Fp>, p2: DmcProver<F>, v2: DmcVerifier<F>,
                                      challenges: nat -> nat -> seq<F>, ghost asserted: seq<F>, xs: seq<BitP<F>>,
                                      ys: seq<BitV<F>>)
    returns (ok: bool, e: Option<EdabitP<F>>, f: Option<EdabitV<F>>, ghost asserted': seq<F>, sent: seq<Option<F>>)
    requires Synced(p, v) && p.isOk && v.isOk && p.fcom.r == FP
    requires Synced(p2, v2) && p2.isOk && v2.isOk && Queued(p2.fcom.r, asserted, p2.checkZeroList)
    requires p as object != p2 && v as object != v2
    requires p.fcom as object != p2.fcom && v.fcom as object != v2.fcom && p.state as object != p2.state
    requires v.state as object != v2.state
    requires IsBinary(p2.fcom.r) && BitsAgree(p2.fcom.r, v2.fcom.delta, xs, ys) && forall i :: Seeded(challenges(i))
    modifies p.fcom, v.fcom, p2, p2.fcom, p2.state, v2, v2.fcom, v2.state
    ensures Synced(p2, v2) && Synced(p, v) && p2.isOk == ok && p.isOk && v.isOk
    ensures AllZero(p2.fcom.r, asserted') <==> AllZero(p2.fcom.r, asserted)
    ensures !ok ==> !AllZero(p2.fcom.r, asserted)
    ensures ok ==> v2.isOk && Queued(p2.fcom.r, asserted', p2.checkZeroList) && e.Some? && f.Some?
    ensures ok ==> AuthEdabit(p2.fcom.r, v2.fcom.delta, v.fcom.delta, e.value, f.value)
    ensures ok ==> Values(e.value.bits) == ClearBits(xs) && e.value.value.x == ToFp(BitsValue(p2.fcom.r, ClearBits(xs)))
    ensures ok ==>
      && Converted(e.value.bits, p2.fcom.used, p2.checkZeroList, sent)
         == ConvertedBits(SettingOf(p2), challenges, xs, Converted([], old(p2.fcom.used), old(p2.checkZeroList), []),
                          |xs|)
      && e.value.value == Committed(e.value.value.x, Delivered(p.fcom.supply, old(p.fcom.used), 1))
      && p.fcom.used == old(p.fcom.used) + 1 && v.fcom.used == old(v.fcom.used) + 1
      && p2.state.pushed == old(p2.state.pushed)
    ensures ok ==> TupleDiscrepancy(p2.fcom.r, e.value) == 0
  {
    hide Synced, IsRing, Queued, Auth, AllZero, IsBinary, BitsValue, TupleDiscrepancy, Delivered, AddCstP,
         Pending, ToFp, Pow2, FP, Productive, IsBit, FpAdd, FpMul;
    ghost var r, s, start := p2.fcom.r, SettingOf(p2), Converted([], p2.fcom.used, p2.checkZeroList, []);
    ok, e, f, asserted', sent := true, None, None, asserted, [];
    var bits, keys: seq<MacVerifier<F>>, recomposed: Fp, powerTwos: Fp := [], [], 0, 1;
    NoBits(r);
    for i := 0 to |xs|
      invariant Synced(p, v) && p.isOk && v.isOk && Synced(p2, v2) && p2.isOk && v2.isOk && ok
      invariant Queued(r, asserted', p2.checkZeroList) && (AllZero(r, asserted') <==> AllZero(r, asserted))
      invariant |bits| == i && AuthAll(r, v2.fcom.delta, bits, keys) && Values(bits) == ClearBits(xs)[..i]
      invariant recomposed == ToFp(BitsValue(r, Values(bits))) && powerTwos == ToFp(Pow2(i))
      invariant Converted(bits, p2.fcom.used, p2.checkZeroList, sent) == ConvertedBits(s, challenges, xs, start, i)
      invariant p.fcom.used == old(p.fcom.used) && v.fcom.used == old(v.fcom.used)
      invariant p2.state.pushed == old(p2.state.pushed)
    {
      OnePair(r, v2.fcom.delta, xs, ys, i);
      var m, k, message;
      ok, m, k, asserted', message := RunBit(p2, v2, challenges(i), asserted', xs[i], ys[i]);
      if !ok {
        return;
      }
      Recompose(r, Values(bits), m.x, recomposed, powerTwos);
      recomposed := FpAdd(recomposed, FpMul(if m.x == p2.fcom.r.one then 1 else 0, powerTwos));
      powerTwos := FpAdd(powerTwos, powerTwos);
      assert Values(bits + [m]) == Values(bits) + [m.x];
      bits, keys, sent := bits + [m], keys + [k], sent + [message];
    }
    assert ClearBits(xs)[..|xs|] == ClearBits(xs);
    var value, valueKey := RunPrivate(p, v, recomposed);
    e, f := Some(EdabitP(bits, value)), Some(EdabitV(keys, valueKey));
    NoDiscrepancy(r, e.value);
  }

  lemma NoBits<F(!new)>(r: Ring<F>)
    ensures BitsValue<F>(r, []) == 0 && Values<F>([]) == [] && ToFp(0) == 0 && ToFp(Pow2(0)) == 1
  {
    ToFpSmall(0);
    ToFpSmall(1);
  }

  lemma OnePair<F(!new)>(r: Ring<F>, delta: F, xs: seq<BitP<F>>, ys: seq<BitV<F>>, i: nat)
    requires BitsAgree(r, delta, xs, ys) && i < |xs|
    ensures BitsAgree(r, delta, [xs[i]], [ys[i]])
  {
  }

  lemma Recompose<F(!new)>(r: Ring<F>, bits: seq<F>, b: F, value: Fp, power: Fp)
    requires value == ToFp(BitsValue(r, bits)) && power == ToFp(Pow2(|bits|))
    ensures FpAdd(value, FpMul(if b == r.one then 1 else 0, power)) == ToFp(BitsValue(r, bits + [b]))
    ensures FpAdd(power, power) == ToFp(Pow2(|bits| + 1))
  {
    BitsValueSnoc(r, bits, b);
    AddHom(BitsValue(r, bits), BitWeight(r, b, |bits|));
    AddHom(Pow2(|bits|), Pow2(|bits|));
    FpLaws1(power);
    ToFpSmall(0);
  }
}
