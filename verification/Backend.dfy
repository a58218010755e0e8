/** The gates of the back end: queued zero and multiplication checks, and whole gate programs run by both parties. */
module Backend {
  import opened Options
  import opened Rings
  import opened Sums
  import opened Homcom
  import opened QuickSilver

  const QUEUE_CAPACITY := 3_000_000

  /** One challenge per queued element, from the verifier's seed. */
  ghost predicate Seeded<F(!new)>(chis: nat -> seq<F>) {
    forall n :: |chis(n)| == n
  }

  class DmcProver<F(!new, ==)> {
    const fcom: FComProver<F>
    const state: StateProver<F>
    const noBatching: bool
    var isOk: bool
    var checkZeroList: seq<MacProver<F>>
    var monitorMul: nat
    var monitorMultChecked: nat
    var monitorZero: nat
    var monitorZeroChecked: nat

    /** Nothing is lost between a gate and its check: what was counted is checked or still queued. */
    ghost predicate Counted()
      reads this, state
    {
      && state.Valid() && state.r == fcom.r && Productive(fcom.supply)
      && monitorMul == monitorMultChecked + |state.pushed|
      && monitorZero == monitorZeroChecked + |checkZeroList|
    }

    /** Between gates the queue is never full. */
    ghost predicate Valid()
      reads this, state
    {
      Counted() && |checkZeroList| < QUEUE_CAPACITY && (noBatching ==> checkZeroList == [])
    }

    constructor (fcom: FComProver<F>, state: StateProver<F>, noBatching: bool)
      requires state.Valid() && state.pushed == [] && state.r == fcom.r && Productive(fcom.supply)
      ensures Valid() && this.fcom == fcom && this.state == state && this.noBatching == noBatching && isOk
      ensures checkZeroList == []
    {
      this.fcom, this.state, this.noBatching := fcom, state, noBatching;
      isOk, checkZeroList := true, [];
      monitorMul, monitorMultChecked, monitorZero, monitorZeroChecked := 0, 0, 0, 0;
    }

    /** The authenticated value, and the correction for the verifier. */
    method Input(x: F) returns (w: MacProver<F>, correction: F)
      requires Productive(fcom.supply)
      modifies fcom
      ensures fcom.used == old(fcom.used) + 1
      ensures var (ds, pool) := DrawN(fcom.supply, old(fcom.State()), 1);
              fcom.State() == pool && w == MacProver(x, ds[0].m) && correction == fcom.r.Sub(x, ds[0].x)
    {
      var macs, corrections := fcom.Input([x]);
      w, correction := MacProver(x, macs[0]), corrections[0];
    }

    /** A gate that sends nothing. After an error only public wires can still be made. */
    method LocalGate(ps: seq<MacProver<F>>, g: Gate<F>) returns (w: Option<MacProver<F>>)
      requires GateOk(|ps|, g) && Local(g)
      ensures w == if isOk || !g.Checked() then Some(LocalP(fcom.r, ps, g)) else None
    {
      if g.Checked() && !isOk {
        return None;
      }
      match g
      case Public(x) => w := Some(MacProver(x, fcom.r.zero));
      case Challenge(c) => w := Some(MacProver(fcom.r.zero, c));
      case Copy(a) => w := Some(ps[a]);
      case Add(a, b) => w := Some(AddP(fcom.r, ps[a], ps[b]));
      case AddConstant(a, k) => w := Some(AddCstP(fcom.r, k, ps[a]));
      case MulConstant(a, k) => w := Some(MulCstP(fcom.r, k, ps[a]));
    }

    method InputPrivate(x: F) returns (res: Option<(MacProver<F>, F)>)
      requires Productive(fcom.supply)
      modifies fcom
      ensures !isOk ==> res == None && fcom.State() == old(fcom.State()) && fcom.used == old(fcom.used)
      ensures isOk ==> fcom.used == old(fcom.used) + 1
      ensures isOk ==> var (ds, pool) := DrawN(fcom.supply, old(fcom.State()), 1);
                       fcom.State() == pool && res == Some((MacProver(x, ds[0].m), fcom.r.Sub(x, ds[0].x)))
    {
      if !isOk {
        return None;
      }
      var w, correction := Input(x);
      res := Some((w, correction));
    }

    method Mul(a: MacProver<F>, b: MacProver<F>) returns (res: Option<(MacProver<F>, F)>)
      requires Valid()
      modifies this`monitorMul, fcom, state
      ensures Valid()
      ensures !isOk ==>
        && res == None && fcom.State() == old(fcom.State()) && fcom.used == old(fcom.used)
        && state.pushed == old(state.pushed)
      ensures isOk ==> fcom.used == old(fcom.used) + 1
      ensures isOk ==> var (ds, pool) := DrawN(fcom.supply, old(fcom.State()), 1);
                       var x := fcom.r.mul(a.x, b.x);
                       && fcom.State() == pool && res == Some((MacProver(x, ds[0].m), fcom.r.Sub(x, ds[0].x)))
                       && state.pushed == old(state.pushed) + [(a, b, res.value.0)]
    {
      if !isOk {
        return None;
      }
      monitorMul := monitorMul + 1;
      var w, correction := Input(fcom.r.mul(a.x, b.x));
      state.Push((a, b, w));
      res := Some((w, correction));
    }

    /** Sends the combined mac; an honest prover itself notices a value that is not zero. */
    method DoCheckZero(chis: nat -> seq<F>) returns (ok: bool, m: F)
      requires Counted() && Seeded(chis)
      modifies this`isOk, this`checkZeroList, this`monitorZeroChecked
      ensures Valid() && checkZeroList == [] && isOk == (old(isOk) && ok)
      ensures ok <==> forall i :: 0 <= i < |old(checkZeroList)| ==> old(checkZeroList)[i].x == fcom.r.zero
      ensures m == DotMacs(fcom.r, chis(|old(checkZeroList)|), old(checkZeroList))
    {
      m, ok := fcom.CheckZero(chis(|checkZeroList|), checkZeroList);
      if !ok {
        isOk := false;
      }
      monitorZeroChecked := monitorZeroChecked + |checkZeroList|;
      checkZeroList := [];
    }

    method AssertZero(w: MacProver<F>, chis: nat -> seq<F>) returns (ok: bool, sent: Option<F>)
      requires Valid() && Seeded(chis)
      modifies this`isOk, this`checkZeroList, this`monitorZero, this`monitorZeroChecked
      ensures Valid() && isOk == ok
      ensures !old(isOk) ==> !ok && sent == None && checkZeroList == old(checkZeroList)
      ensures old(isOk) ==>
              var queue := old(checkZeroList) + [w];
              if |queue| == QUEUE_CAPACITY || noBatching
              then
                && checkZeroList == [] && sent == Some(DotMacs(fcom.r, chis(|queue|), queue))
                && (ok <==> forall i :: 0 <= i < |queue| ==> queue[i].x == fcom.r.zero)
              else checkZeroList == queue && ok && sent == None
    {
      ok, sent := isOk, None;
      if !isOk {
        return;
      }
      monitorZero := monitorZero + 1;
      checkZeroList := checkZeroList + [w];
      if |checkZeroList| == QUEUE_CAPACITY || noBatching {
        var m;
        ok, m := DoCheckZero(chis);
        sent := Some(m);
      }
    }

    method DoMultCheck() returns (u: F, w: F)
      requires Valid()
      modifies this`monitorMultChecked, fcom, state
      ensures Valid() && state.pushed == [] && fcom.used == old(fcom.used) + |fcom.basis|
      ensures var (us, pool) := DrawN(fcom.supply, old(fcom.State()), |fcom.basis|);
              && fcom.State() == pool
              && u == HonestU(fcom.r, state.chi, old(state.pushed), Dot(fcom.r, fcom.basis, Macs(us)))
              && w == HonestV(fcom.r, state.chi, old(state.pushed), Dot(fcom.r, fcom.basis, Values(us)))
    {
      var n;
      u, w, n := state.Finalize(fcom);
      monitorMultChecked := monitorMultChecked + n;
    }
  }

  class DmcVerifier<F(!new, ==)> {
    const fcom: FComVerifier<F>
    const state: StateVerifier<F>
    const noBatching: bool
    var isOk: bool
    var checkZeroList: seq<MacVerifier<F>>

    ghost predicate Ready()
      reads state
    {
      state.Valid() && state.r == fcom.r && state.delta == fcom.delta && Productive(fcom.supply)
    }

    ghost predicate Valid()
      reads this, state
    {
      Ready() && |checkZeroList| < QUEUE_CAPACITY && (noBatching ==> checkZeroList == [])
    }

    constructor (fcom: FComVerifier<F>, state: StateVerifier<F>, noBatching: bool)
      requires state.Valid() && state.pushed == [] && state.r == fcom.r && state.delta == fcom.delta
      requires Productive(fcom.supply)
      ensures Valid() && this.fcom == fcom && this.state == state && this.noBatching == noBatching && isOk
      ensures checkZeroList == []
    {
      this.fcom, this.state, this.noBatching := fcom, state, noBatching;
      isOk, checkZeroList := true, [];
    }

    method Input(correction: F) returns (w: MacVerifier<F>)
      requires Productive(fcom.supply)
      modifies fcom
      ensures fcom.used == old(fcom.used) + 1
      ensures var (ds, pool) := DrawN(fcom.supply, old(fcom.State()), 1);
              fcom.State() == pool && w == MacVerifier(fcom.r.Sub(ds[0].k, fcom.r.mul(correction, fcom.delta)))
    {
      var keys := fcom.Input([correction]);
      w := keys[0];
    }

    method LocalGate(vs: seq<MacVerifier<F>>, g: Gate<F>) returns (w: Option<MacVerifier<F>>)
      requires GateOk(|vs|, g) && Local(g)
      ensures w == if isOk || !g.Checked() then Some(LocalV(fcom.r, fcom.delta, vs, g)) else None
    {
      if g.Checked() && !isOk {
        return None;
      }
      match g
      case Public(x) => w := Some(MacVerifier(fcom.r.mul(fcom.r.neg(x), fcom.delta)));
      case Challenge(c) => w := Some(MacVerifier(c));
      case Copy(a) => w := Some(vs[a]);
      case Add(a, b) => w := Some(AddV(fcom.r, vs[a], vs[b]));
      case AddConstant(a, k) => w := Some(AddCstV(fcom.r, fcom.delta, k, vs[a]));
      case MulConstant(a, k) => w := Some(MulCstV(fcom.r, k, vs[a]));
    }

    method InputPrivate(correction: F) returns (res: Option<MacVerifier<F>>)
      requires Productive(fcom.supply)
      modifies fcom
      ensures !isOk ==> res == None && fcom.State() == old(fcom.State()) && fcom.used == old(fcom.used)
      ensures isOk ==> fcom.used == old(fcom.used) + 1
      ensures isOk ==> var (ds, pool) := DrawN(fcom.supply, old(fcom.State()), 1);
                       && fcom.State() == pool
                       && res == Some(MacVerifier(fcom.r.Sub(ds[0].k, fcom.r.mul(correction, fcom.delta))))
    {
      if !isOk {
        return None;
      }
      var w := Input(correction);
      res := Some(w);
    }

    method Mul(a: MacVerifier<F>, b: MacVerifier<F>, correction: F) returns (res: Option<MacVerifier<F>>)
      requires Valid()
      modifies fcom, state
      ensures Valid()
      ensures !isOk ==>
        && res == None && fcom.State() == old(fcom.State()) && fcom.used == old(fcom.used)
        && state.pushed == old(state.pushed)
      ensures isOk ==> fcom.used == old(fcom.used) + 1
      ensures isOk ==> var (ds, pool) := DrawN(fcom.supply, old(fcom.State()), 1);
                       && fcom.State() == pool
                       && res == Some(MacVerifier(fcom.r.Sub(ds[0].k, fcom.r.mul(correction, fcom.delta))))
                       && state.pushed == old(state.pushed) + [(a, b, res.value)]
    {
      if !isOk {
        return None;
      }
      var w := Input(correction);
      state.Push((a, b, w));
      res := Some(w);
    }

    method DoCheckZero(chis: nat -> seq<F>, m: F) returns (ok: bool)
      requires Ready() && Seeded(chis)
      modifies this`isOk, this`checkZeroList
      ensures Valid() && checkZeroList == [] && isOk == (old(isOk) && ok)
      ensures ok <==> ZeroAccepts(fcom.r, chis(|old(checkZeroList)|), old(checkZeroList), m)
    {
      ok := fcom.CheckZero(chis(|checkZeroList|), checkZeroList, m);
      if !ok {
        isOk := false;
      }
      checkZeroList := [];
    }

    method AssertZero(w: MacVerifier<F>, chis: nat -> seq<F>, sent: Option<F>) returns (ok: bool)
      requires Valid() && Seeded(chis)
      requires isOk ==> (sent.Some? <==> |checkZeroList| + 1 == QUEUE_CAPACITY || noBatching)
      modifies this`isOk, this`checkZeroList
      ensures Valid() && isOk == ok
      ensures !old(isOk) ==> !ok && checkZeroList == old(checkZeroList)
      ensures old(isOk) ==>
              var queue := old(checkZeroList) + [w];
              if |queue| == QUEUE_CAPACITY || noBatching
              then checkZeroList == [] && (ok <==> ZeroAccepts(fcom.r, chis(|queue|), queue, sent.value))
              else checkZeroList == queue && ok
    {
      ok := isOk;
      if !isOk {
        return;
      }
      checkZeroList := checkZeroList + [w];
      if |checkZeroList| == QUEUE_CAPACITY || noBatching {
        ok := DoCheckZero(chis, sent.value);
      }
    }

    method DoMultCheck(u: F, w: F) returns (ok: bool)
      requires Valid()
      modifies fcom, state
      ensures Valid() && state.pushed == [] && fcom.used == old(fcom.used) + |fcom.basis|
      ensures var (vs, pool) := DrawN(fcom.supply, old(fcom.State()), |fcom.basis|);
              && fcom.State() == pool
              && var key := Dot(fcom.r, fcom.basis, Keys(vs));
                 ok <==> MultiplyAccepts(fcom.r, fcom.delta, state.chi, old(state.pushed), key, u, w)
    {
      var n;
      ok, n := state.Finalize(fcom, u, w);
    }
  }

  // ---- gate programs ----

  /** Gates name the wires they read by number; Finalize may come anywhere. */
  datatype Gate<F> =
    | Public(x: F)
    | Private(x: F)
    | Challenge(c: F)
    | Copy(a: nat)
    | Add(a: nat, b: nat)
    | Mul(a: nat, b: nat)
    | AddConstant(a: nat, k: F)
    | MulConstant(a: nat, k: F)
    | AssertZero(a: nat)
    | Finalize
  {
    /** Refused once an error has occurred. */
    predicate Checked() {
      !Public? && !Challenge? && !Copy?
    }
  }

  predicate GateOk<F>(n: nat, g: Gate<F>) {
    match g
    case Copy(a) => a < n
    case Add(a, b) => a < n && b < n
    case Mul(a, b) => a < n && b < n
    case AddConstant(a, _) => a < n
    case MulConstant(a, _) => a < n
    case AssertZero(a) => a < n
    case _ => true
  }

  function WireCount<F>(gates: seq<Gate<F>>): nat {
    if gates == [] then 0
    else
      var n := |gates| - 1;
      WireCount(gates[..n]) + if gates[n].AssertZero? || gates[n].Finalize? then 0 else 1
  }

  predicate ProgramOk<F>(gates: seq<Gate<F>>) {
    gates == [] || var n := |gates| - 1; ProgramOk(gates[..n]) && GateOk(WireCount(gates[..n]), gates[n])
  }

  /** The clear value of a gate's output. */
  function GateValue<F>(r: Ring<F>, ws: seq<F>, g: Gate<F>): F
    requires GateOk(|ws|, g) && !g.AssertZero? && !g.Finalize?
  {
    match g
    case Public(x) => x
    case Private(x) => x
    case Challenge(_) => r.zero
    case Copy(a) => ws[a]
    case Add(a, b) => r.add(ws[a], ws[b])
    case Mul(a, b) => r.mul(ws[a], ws[b])
    case AddConstant(a, k) => r.add(k, ws[a])
    case MulConstant(a, k) => r.mul(k, ws[a])
  }

  function GateVoles<F>(g: Gate<F>, degree: nat): nat {
    if g.Private? || g.Mul? then 1 else if g.Finalize? then degree else 0
  }

  function AssertedBy<F>(ws: seq<F>, g: Gate<F>): seq<F>
    requires GateOk(|ws|, g)
  {
    if g.AssertZero? then [ws[g.a]] else []
  }

  function Output<F>(r: Ring<F>, ws: seq<F>, g: Gate<F>): seq<F>
    requires GateOk(|ws|, g)
  {
    if g.AssertZero? || g.Finalize? then [] else [GateValue(r, ws, g)]
  }

  /** The clear values of all wires. */
  function Clear<F>(r: Ring<F>, gates: seq<Gate<F>>): (ws: seq<F>)
    requires ProgramOk(gates)
    ensures |ws| == WireCount(gates)
  {
    if gates == [] then []
    else
      var n := |gates| - 1;
      var ws := Clear(r, gates[..n]);
      ws + Output(r, ws, gates[n])
  }

  /** The clear values of the wires asserted to be zero, in order. */
  function Asserted<F>(r: Ring<F>, gates: seq<Gate<F>>): seq<F>
    requires ProgramOk(gates)
  {
    if gates == [] then []
    else
      var n := |gates| - 1;
      Asserted(r, gates[..n]) + AssertedBy(Clear(r, gates[..n]), gates[n])
  }

  /** What a program takes from the VOLE pool; `degree` for the mask of each multiplication check. */
  function VolesUsed<F>(gates: seq<Gate<F>>, degree: nat): nat {
    if gates == [] then 0
    else
      var n := |gates| - 1;
      VolesUsed(gates[..n], degree) + GateVoles(gates[n], degree)
  }

  /** Both parties, in step: same queues, same pools, only correct products waiting to be checked. */
  ghost predicate Synced<F(!new)>(p: DmcProver<F>, v: DmcVerifier<F>)
    reads p, p.fcom, p.state, v, v.fcom, v.state
  {
    && p.Valid() && v.Valid() && Linked(p.fcom, v.fcom) && p.state.chi == v.state.chi && p.noBatching == v.noBatching
    && AuthAll(p.fcom.r, v.fcom.delta, p.checkZeroList, v.checkZeroList)
    && AuthTriples(p.fcom.r, v.fcom.delta, p.state.pushed, v.state.pushed)
    && AllCorrect(p.fcom.r, p.state.pushed)
  }

  /** The asserted values: those checked already are zero, the others are queued. */
  ghost predicate Queued<F>(r: Ring<F>, asserted: seq<F>, queue: seq<MacProver<F>>) {
    && |queue| <= |asserted|
    && AllZero(r, asserted[..|asserted| - |queue|]) && asserted[|asserted| - |queue|..] == Values(queue)
  }

  lemma PublicAuth<F(!new)>(r: Ring<F>, delta: F, x: F)
    requires IsRing(r)
    ensures Auth(r, delta, MacProver(x, r.zero), MacVerifier(r.mul(r.neg(x), delta)))
  {
    MulComm(r, r.neg(x), delta);
    MulNeg(r, delta, x);
    AddNeg(r, r.mul(delta, x));
  }

  lemma ChallengeAuth<F(!new)>(r: Ring<F>, delta: F, c: F)
    requires IsRing(r)
    ensures Auth(r, delta, MacProver(r.zero, c), MacVerifier(c))
  {
    MulZero(r, delta);
    AddZero(r, c);
  }

  // ---- gates that send nothing ----

  predicate Local<F>(g: Gate<F>) {
    !g.Private? && !g.Mul? && !g.AssertZero? && !g.Finalize?
  }

  function LocalP<F>(r: Ring<F>, ps: seq<MacProver<F>>, g: Gate<F>): MacProver<F>
    requires GateOk(|ps|, g) && Local(g)
  {
    match g
    case Public(x) => MacProver(x, r.zero)
    case Challenge(c) => MacProver(r.zero, c)
    case Copy(a) => ps[a]
    case Add(a, b) => AddP(r, ps[a], ps[b])
    case AddConstant(a, k) => AddCstP(r, k, ps[a])
    case MulConstant(a, k) => MulCstP(r, k, ps[a])
  }

  function LocalV<F>(r: Ring<F>, delta: F, vs: seq<MacVerifier<F>>, g: Gate<F>): MacVerifier<F>
    requires GateOk(|vs|, g) && Local(g)
  {
    match g
    case Public(x) => MacVerifier(r.mul(r.neg(x), delta))
    case Challenge(c) => MacVerifier(c)
    case Copy(a) => vs[a]
    case Add(a, b) => AddV(r, vs[a], vs[b])
    case AddConstant(a, k) => AddCstV(r, delta, k, vs[a])
    case MulConstant(a, k) => MulCstV(r, k, vs[a])
  }

  lemma LocalAuth<F(!new)>(r: Ring<F>, delta: F, ps: seq<MacProver<F>>, vs: seq<MacVerifier<F>>, g: Gate<F>)
    requires IsRing(r) && AuthAll(r, delta, ps, vs) && GateOk(|ps|, g) && Local(g)
    ensures Auth(r, delta, LocalP(r, ps, g), LocalV(r, delta, vs, g))
    ensures LocalP(r, ps, g).x == GateValue(r, Values(ps), g)
  {
    hide Auth, IsRing;
    match g
    case Public(x) => PublicAuth(r, delta, x);
    case Challenge(c) => ChallengeAuth(r, delta, c);
    case Copy(a) => assert Auth(r, delta, ps[a], vs[a]);
    case Add(a, b) => AddAuth(r, delta, ps[a], ps[b], vs[a], vs[b]);
    case AddConstant(a, k) => AddCstAuth(r, delta, k, ps[a], vs[a]);
    case MulConstant(a, k) => MulCstAuth(r, delta, k, ps[a], vs[a]);
  }

  // ---- what an honest prover computes and sends, as a reference ----

  /** A combined mac of a flushed queue, or the message about the products. */
  datatype Message<F> = Zeros(m: F) | Products(proof: ProductProof<F>)

  /** What never changes about a prover. */
  datatype Setting<!F> = Setting(r: Ring<F>, basis: seq<F>, supply: nat -> seq<MacProver<F>>, chi: F, noBatching: bool)

  ghost function SettingOf<F(!new)>(p: DmcProver<F>): Setting<F> {
    Setting(p.fcom.r, p.fcom.basis, p.fcom.supply, p.state.chi, p.noBatching)
  }

  /** The wires so far, what is queued for the two checks, the number of VOLEs used, and what was sent. */
  datatype Track<F> = Track(wires: seq<MacProver<F>>, queue: seq<MacProver<F>>, pushed: seq<TripleP<F>>, used: nat,
                            log: seq<Message<F>>)

  function Committed<F>(x: F, us: seq<MacProver<F>>): MacProver<F> {
    MacProver(x, if |us| == 1 then us[0].m else x)
  }

  ghost function ZeroMac<F>(r: Ring<F>, chis: nat -> seq<F>, queue: seq<MacProver<F>>): F {
    if |chis(|queue|)| == |queue| then DotMacs(r, chis(|queue|), queue) else r.zero
  }

  ghost function Advance<F>(s: Setting<F>, chis: nat -> seq<F>, t: Track<F>, g: Gate<F>): Track<F> {
    if !GateOk(|t.wires|, g) then t
    else
      match g
      case Private(x) =>
        t.(wires := t.wires + [Committed(x, Delivered(s.supply, t.used, 1))], used := t.used + 1)
      case Mul(a, b) =>
        var w := Committed(s.r.mul(t.wires[a].x, t.wires[b].x), Delivered(s.supply, t.used, 1));
        t.(wires := t.wires + [w], used := t.used + 1, pushed := t.pushed + [(t.wires[a], t.wires[b], w)])
      case AssertZero(a) =>
        var queue := t.queue + [t.wires[a]];
        if |queue| == QUEUE_CAPACITY || s.noBatching
        then t.(queue := [], log := t.log + [Zeros(ZeroMac(s.r, chis, queue))])
        else t.(queue := queue)
      case Finalize =>
        var proof := HonestProof(s.r, s.basis, s.chi, t.pushed, Delivered(s.supply, t.used, |s.basis|));
        t.(queue := [], pushed := [], used := t.used + |s.basis|,
           log := t.log + [Zeros(ZeroMac(s.r, chis, t.queue)), Products(proof)])
      case _ => t.(wires := t.wires + [LocalP(s.r, t.wires, g)])
  }

  ghost function Tracked<F>(s: Setting<F>, challenges: nat -> nat -> seq<F>, used: nat,
                            gates: seq<Gate<F>>): Track<F>
  {
    if gates == [] then Track([], [], [], used, [])
    else
      var n := |gates| - 1;
      Advance(s, challenges(n), Tracked(s, challenges, used, gates[..n]), gates[n])
  }

  lemma NothingTracked<F>(s: Setting<F>, challenges: nat -> nat -> seq<F>, used: nat)
    ensures Tracked(s, challenges, used, []) == Track([], [], [], used, [])
  {
  }

  lemma NextTracked<F>(s: Setting<F>, challenges: nat -> nat -> seq<F>, used: nat, gates: seq<Gate<F>>, i: nat)
    requires i < |gates|
    ensures Tracked(s, challenges, used, gates[..i + 1])
         == Advance(s, challenges(i), Tracked(s, challenges, used, gates[..i]), gates[i])
  {
    hide Advance;
    assert gates[..i + 1][..i] == gates[..i];
  }

  // ---- both parties ----

  lemma QueueGrows<F(!new)>(r: Ring<F>, asserted: seq<F>, queue: seq<MacProver<F>>, w: MacProver<F>)
    requires Queued(r, asserted, queue)
    ensures Queued(r, asserted + [w.x], queue + [w])
    ensures AllZero(r, asserted + [w.x]) <==> forall i :: 0 <= i < |queue + [w]| ==> (queue + [w])[i].x == r.zero
  {
    var n := |asserted| - |queue|;
    assert (asserted + [w.x])[..n] == asserted[..n];
    assert (asserted + [w.x])[n..] == Values(queue + [w]) by {
      assert (asserted + [w.x])[n..] == asserted[n..] + [w.x];
    }
    QueueDecides(r, asserted + [w.x], queue + [w]);
  }

  /** Whether everything asserted is zero is whether the queue is. */
  lemma QueueDecides<F(!new)>(r: Ring<F>, asserted: seq<F>, queue: seq<MacProver<F>>)
    requires Queued(r, asserted, queue)
    ensures AllZero(r, asserted) <==> forall i :: 0 <= i < |queue| ==> queue[i].x == r.zero
    ensures AllZero(r, asserted) ==> Queued(r, asserted, [])
  {
    var n := |asserted| - |queue|;
    assert asserted == asserted[..n] + Values(queue);
    forall i | 0 <= i < |queue| ensures queue[i].x == asserted[n + i] {
      assert asserted[n..][i] == Values(queue)[i];
    }
    assert asserted[..|asserted| - 0] == asserted;
    assert asserted[|asserted| - 0..] == Values<F>([]);
  }

  /** A flushed queue: the honest prover reports exactly the values that are not zero, and when it reports none the
      verifier accepts. */
  method RunFlush<F(!new, ==)>(p: DmcProver<F>, v: DmcVerifier<F>, chis: nat -> seq<F>, ghost asserted: seq<F>)
    returns (ok: bool, m: F)
    requires Synced(p, v) && p.isOk && v.isOk && Seeded(chis) && Queued(p.fcom.r, asserted, p.checkZeroList)
    modifies p`isOk, p`checkZeroList, p`monitorZeroChecked, v`isOk, v`checkZeroList
    ensures Synced(p, v) && p.checkZeroList == [] && p.isOk == ok
    ensures m == ZeroMac(p.fcom.r, chis, old(p.checkZeroList))
    ensures ok <==> AllZero(p.fcom.r, asserted)
    ensures ok ==> v.isOk && Queued(p.fcom.r, asserted, [])
  {
    hide Queued, AllZero, IsRing, ZeroAccepts, DotMacs, Correlated;
    ghost var n := |p.checkZeroList|;
    ZeroCheckExact(p.fcom.r, v.fcom.delta, chis(n), p.checkZeroList, v.checkZeroList);
    QueueDecides(p.fcom.r, asserted, p.checkZeroList);
    ok, m := p.DoCheckZero(chis);
    var accepted := v.DoCheckZero(chis, m);
  }

  method RunAssertZero<F(!new, ==)>(p: DmcProver<F>, v: DmcVerifier<F>, chis: nat -> seq<F>, ghost asserted: seq<F>,
                                    w: MacProver<F>, k: MacVerifier<F>) returns (ok: bool, sent: Option<F>)
    requires Synced(p, v) && p.isOk && v.isOk && Seeded(chis) && Queued(p.fcom.r, asserted, p.checkZeroList)
    requires Auth(p.fcom.r, v.fcom.delta, w, k)
    modifies p`isOk, p`checkZeroList, p`monitorZero, p`monitorZeroChecked, v`isOk, v`checkZeroList
    ensures Synced(p, v) && p.isOk == ok
    ensures var queue := old(p.checkZeroList) + [w];
            if |queue| == QUEUE_CAPACITY || p.noBatching
            then p.checkZeroList == [] && sent == Some(ZeroMac(p.fcom.r, chis, queue))
            else p.checkZeroList == queue && sent == None
    ensures !ok ==> !AllZero(p.fcom.r, asserted + [w.x])
    ensures ok ==> v.isOk && Queued(p.fcom.r, asserted + [w.x], p.checkZeroList)
  {
    hide Queued, AllZero, IsRing, ZeroAccepts, DotMacs, Correlated, Auth;
    ghost var queue, keys := p.checkZeroList + [w], v.checkZeroList + [k];
    QueueGrows(p.fcom.r, asserted, p.checkZeroList, w);
    QueueDecides(p.fcom.r, asserted + [w.x], queue);
    assert AuthAll(p.fcom.r, v.fcom.delta, queue, keys);
    ZeroCheckExact(p.fcom.r, v.fcom.delta, chis(|queue|), queue, keys);
    ok, sent := p.AssertZero(w, chis);
    var accepted := v.AssertZero(k, chis, sent);
  }

  /** A private value, or the product of two wires (with the triple queued on both sides). */
  lemma DrawOne<F(!new)>(p: FComProver<F>, v: FComVerifier<F>, x: F)
    requires Linked(p, v)
    ensures var (ds, pool), (es, pool') := DrawN(p.supply, p.State(), 1), DrawN(v.supply, v.State(), 1);
            && Correlated(p.r, v.delta, p.prime, p.supply, pool, v.supply, pool')
            && ds == p.Voles(p.used, 1) && pool == DrawN(p.supply, Pool([], 0), p.used + 1).1
            && Auth(p.r, v.delta, MacProver(x, ds[0].m),
                    MacVerifier(p.r.Sub(es[0].k, p.r.mul(p.r.Sub(x, ds[0].x), v.delta))))
  {
    hide IsRing, DrawN, Auth;
    hide p.Counted;
    NextVoles(p, v, 1);
    DrawNCorrelated(p.r, v.delta, p.prime, p.supply, p.State(), v.supply, v.State(), 1);
    var ds, es := DrawN(p.supply, p.State(), 1).0, DrawN(v.supply, v.State(), 1).0;
    hide Correlated;
    assert Auth(p.r, v.delta, ds[0], es[0]);
    InputAuth(p.r, v.delta, x, ds[0], es[0]);
  }

  method RunPrivate<F(!new, ==)>(p: DmcProver<F>, v: DmcVerifier<F>, x: F) returns (w: MacProver<F>, k: MacVerifier<F>)
    requires Synced(p, v) && p.isOk && v.isOk
    modifies p.fcom, v.fcom
    ensures Synced(p, v) && Auth(p.fcom.r, v.fcom.delta, w, k) && w == Committed(x, p.fcom.Voles(old(p.fcom.used), 1))
    ensures p.fcom.used == old(p.fcom.used) + 1 && v.fcom.used == old(v.fcom.used) + 1
  {
    hide DrawN, Auth, AuthAll, AuthTriples, AllCorrect, IsRing, Correlated;
    hide p.fcom.Counted;
    DrawOne(p.fcom, v.fcom, x);
    var sent := p.InputPrivate(x);
    w := sent.value.0;
    var received := v.InputPrivate(sent.value.1);
    k := received.value;
    StillCounted(p.fcom);
  }

  method RunMul<F(!new, ==)>(p: DmcProver<F>, v: DmcVerifier<F>, a: MacProver<F>, b: MacProver<F>, ka: MacVerifier<F>,
                             kb: MacVerifier<F>)
    returns (w: MacProver<F>, k: MacVerifier<F>)
    requires Synced(p, v) && p.isOk && v.isOk && Auth(p.fcom.r, v.fcom.delta, a, ka)
    requires Auth(p.fcom.r, v.fcom.delta, b, kb)
    modifies p`monitorMul, p.fcom, p.state, v.fcom, v.state
    ensures Synced(p, v) && Auth(p.fcom.r, v.fcom.delta, w, k)
    ensures w == Committed(p.fcom.r.mul(a.x, b.x), p.fcom.Voles(old(p.fcom.used), 1))
    ensures p.state.pushed == old(p.state.pushed) + [(a, b, w)]
    ensures p.fcom.used == old(p.fcom.used) + 1 && v.fcom.used == old(v.fcom.used) + 1
  {
    hide DrawN, Auth, AuthAll, IsRing, Correlated, PowerSum, A0s, A1s, Bs;
    hide p.fcom.Counted;
    DrawOne(p.fcom, v.fcom, p.fcom.r.mul(a.x, b.x));
    var sent := p.Mul(a, b);
    w := sent.value.0;
    var received := v.Mul(ka, kb, sent.value.1);
    k := received.value;
    StillCounted(p.fcom);
  }

  /** The multiplication check always passes: an honest prover queues correct products only. */
  method RunMultCheck<F(!new, ==)>(p: DmcProver<F>, v: DmcVerifier<F>) returns (ok: bool, sent: ProductProof<F>)
    requires Synced(p, v)
    modifies p`monitorMultChecked, p.fcom, p.state, v.fcom, v.state
    ensures Synced(p, v) && ok && p.state.pushed == []
    ensures sent == HonestProof(p.fcom.r, p.fcom.basis, p.state.chi, old(p.state.pushed),
                                p.fcom.Voles(old(p.fcom.used), |p.fcom.basis|))
    ensures p.fcom.used == old(p.fcom.used) + |p.fcom.basis| && v.fcom.used == old(v.fcom.used) + |p.fcom.basis|
  {
    hide DrawN, Auth, IsRing, Correlated, PowerSum, A0s, A1s, Bs, HonestU, HonestV, MultiplyAccepts, Dot, AllCorrect,
         AuthTriple;
    hide p.fcom.Counted;
    ghost var pool, pool' := p.fcom.State(), v.fcom.State();
    ghost var n := |p.fcom.basis|;
    NextVoles(p.fcom, v.fcom, n);
    DrawNCorrelated(p.fcom.r, v.fcom.delta, p.fcom.prime, p.fcom.supply, pool, v.fcom.supply, pool', n);
    ghost var us, vs := DrawN(p.fcom.supply, pool, n).0, DrawN(v.fcom.supply, pool', n).0;
    CheckOutcome(p.fcom.r, v.fcom.delta, p.fcom.basis, p.state.chi, p.state.pushed, v.state.pushed, us, vs);
    NoneWrong(p.fcom.r);
    var u, w := p.DoMultCheck();
    sent := ProductProof(u, w);
    ok := v.DoMultCheck(u, w);
    StillCounted(p.fcom);
  }

  lemma NoneWrong<F(!new)>(r: Ring<F>)
    ensures AllCorrect(r, [])
  {
  }

  /** One gate. It fails exactly when a check is due and some asserted value is not zero. */
  method RunGate<F(!new, ==)>(p: DmcProver<F>, v: DmcVerifier<F>, chis: nat -> seq<F>, ghost asserted: seq<F>,
                              g: Gate<F>, ps: seq<MacProver<F>>, vs: seq<MacVerifier<F>>, log: seq<Message<F>>)
    returns (ok: bool, ps': seq<MacProver<F>>, vs': seq<MacVerifier<F>>, log': seq<Message<F>>)
    requires Synced(p, v) && p.isOk && v.isOk && Seeded(chis) && Queued(p.fcom.r, asserted, p.checkZeroList)
    requires AuthAll(p.fcom.r, v.fcom.delta, ps, vs) && GateOk(|ps|, g)
    modifies p, p.fcom, p.state, v, v.fcom, v.state
    ensures Synced(p, v) && p.isOk == ok
    ensures !ok ==> !AllZero(p.fcom.r, asserted + AssertedBy(Values(ps), g))
    ensures ok ==> v.isOk && Queued(p.fcom.r, asserted + AssertedBy(Values(ps), g), p.checkZeroList)
    ensures ok ==>
      AuthAll(p.fcom.r, v.fcom.delta, ps', vs') && Values(ps') == Values(ps) + Output(p.fcom.r, Values(ps), g)
    ensures ok && g.Finalize? ==> AllZero(p.fcom.r, asserted) && p.checkZeroList == [] && p.state.pushed == []
    ensures ok ==> p.fcom.used == old(p.fcom.used) + GateVoles(g, |p.fcom.basis|)
    ensures ok ==> v.fcom.used == old(v.fcom.used) + GateVoles(g, |p.fcom.basis|)
    ensures ok ==> Track(ps', p.checkZeroList, p.state.pushed, p.fcom.used, log')
                   == Advance(SettingOf(p), chis,
                              Track(ps, old(p.checkZeroList), old(p.state.pushed), old(p.fcom.used), log), g)
  {
    hide Queued, AllZero, IsRing, Synced, Auth, LocalP, LocalV;
    ghost var r := p.fcom.r;
    SyncedRing(p, v);
    assert asserted + [] == asserted && Values(ps) + [] == Values(ps);
    ok, ps', vs', log' := true, ps, vs, log;
    if g.AssertZero? {
      var sent;
      ok, sent := RunAssertZero(p, v, chis, asserted, ps[g.a], vs[g.a]);
      if sent.Some? {
        log' := log + [Zeros(sent.value)];
      }
    } else if g.Finalize? {
      var m;
      ok, m := RunFlush(p, v, chis, asserted);
      if ok {
        var passed, proof := RunMultCheck(p, v);
        log' := log + [Zeros(m), Products(proof)];
      }
    } else {
      var w, k;
      if g.Private? {
        w, k := RunPrivate(p, v, g.x);
      } else if g.Mul? {
        w, k := RunMul(p, v, ps[g.a], ps[g.b], vs[g.a], vs[g.b]);
      } else {
        LocalAuth(r, v.fcom.delta, ps, vs, g);
        var wp := p.LocalGate(ps, g);
        var wv := v.LocalGate(vs, g);
        w, k := wp.value, wv.value;
      }
      ps', vs' := ps + [w], vs + [k];
      assert Values(ps') == Values(ps) + [w.x];
    }
  }

  lemma SyncedRing<F(!new)>(p: DmcProver<F>, v: DmcVerifier<F>)
    requires Synced(p, v)
    ensures IsRing(p.fcom.r) && p.fcom.r == v.fcom.r
  {
  }

  lemma EmptyProgram<F(!new)>(r: Ring<F>, delta: F, degree: nat)
    ensures ProgramOk<F>([]) && Clear<F>(r, []) == [] && Values<F>([]) == [] && Asserted<F>(r, []) == []
    ensures Queued<F>(r, [], []) && AuthAll<F>(r, delta, [], []) && VolesUsed<F>([], degree) == 0
  {
  }

  lemma FinalizeOk<F>(n: nat)
    ensures GateOk<F>(n, Finalize)
  {
  }

  /** What one more gate adds to the clear evaluation. */
  lemma NextGate<F(!new)>(r: Ring<F>, gates: seq<Gate<F>>, i: nat, degree: nat)
    requires ProgramOk(gates) && i < |gates|
    ensures ProgramOk(gates[..i]) && ProgramOk(gates[..i + 1])
    ensures var ws, g := Clear(r, gates[..i]), gates[i];
            && GateOk(|ws|, g) && Clear(r, gates[..i + 1]) == ws + Output(r, ws, g)
            && Asserted(r, gates[..i + 1]) == Asserted(r, gates[..i]) + AssertedBy(ws, g)
            && VolesUsed(gates[..i + 1], degree) == VolesUsed(gates[..i], degree) + GateVoles(g, degree)
  {
    ProgramPrefix(gates, i + 1);
    assert gates[..i + 1][..i] == gates[..i];
  }

  lemma {:induction false} ProgramPrefix<F>(gates: seq<Gate<F>>, n: nat)
    requires ProgramOk(gates) && n <= |gates|
    ensures ProgramOk(gates[..n])
  {
    if n == |gates| {
      assert gates[..n] == gates;
    } else {
      ProgramPrefix(gates[..|gates| - 1], n);
      assert gates[..|gates| - 1][..n] == gates[..n];
    }
  }

  /** A program that asserted a value that is not zero cannot mend it. */
  lemma {:induction false} StillNonzero<F(!new)>(r: Ring<F>, gates: seq<Gate<F>>, n: nat)
    requires ProgramOk(gates) && n <= |gates|
    requires ProgramOk(gates[..n]) && !AllZero(r, Asserted(r, gates[..n]))
    ensures !AllZero(r, Asserted(r, gates))
  {
    hide Clear, GateOk, GateValue;
    if n == |gates| {
      assert gates[..n] == gates;
    } else {
      var m := |gates| - 1;
      assert gates[..m][..n] == gates[..n];
      StillNonzero(r, gates[..m], n);
      var early := Asserted(r, gates[..m]);
      assert Asserted(r, gates)[..|early|] == early;
      var i :| 0 <= i < |early| && early[i] != r.zero;
      assert Asserted(r, gates)[i] == early[i];
    }
  }

  /** A whole program, with `finalize` at its end. The honest prover reports an error exactly when some asserted wire
      is not zero; otherwise the verifier accepts everything, every wire holds its clear value under a valid mac, and
      the VOLEs used are those that the gates account for. */
  method RunProgram<F(!new, ==)>(p: DmcProver<F>, v: DmcVerifier<F>, challenges: nat -> nat -> seq<F>,
                                 gates: seq<Gate<F>>)
    returns (ok: bool, ps: seq<MacProver<F>>, vs: seq<MacVerifier<F>>, log: seq<Message<F>>)
    requires Synced(p, v) && p.isOk && v.isOk && p.checkZeroList == [] && p.state.pushed == []
    requires ProgramOk(gates) && forall i :: Seeded(challenges(i))
    modifies p, p.fcom, p.state, v, v.fcom, v.state
    ensures Synced(p, v) && p.isOk == ok
    ensures ok <==> AllZero(p.fcom.r, Asserted(p.fcom.r, gates))
    ensures ok ==> v.isOk && p.checkZeroList == [] && p.state.pushed == []
    ensures ok ==> AuthAll(p.fcom.r, v.fcom.delta, ps, vs) && Values(ps) == Clear(p.fcom.r, gates)
    ensures ok ==> p.fcom.used == old(p.fcom.used) + VolesUsed(gates, |p.fcom.basis|) + |p.fcom.basis|
    ensures ok ==> v.fcom.used == old(v.fcom.used) + VolesUsed(gates, |p.fcom.basis|) + |p.fcom.basis|
    ensures ok ==> Track(ps, [], [], p.fcom.used, log)
                   == Advance(SettingOf(p), challenges(|gates|),
                              Tracked(SettingOf(p), challenges, old(p.fcom.used), gates), Finalize)
  {
    hide Advance, Tracked, SettingOf, Queued, AllZero, IsRing, Synced, Auth, AuthAll, Asserted, Clear, VolesUsed,
         WireCount, ProgramOk, GateOk, GateValue;
    ghost var r := p.fcom.r;
    ps, vs, ok, log := [], [], true, [];
    assert gates[..0] == [];
    ghost var s, start := SettingOf(p), p.fcom.used;
    NothingTracked(s, challenges, start);
    EmptyProgram(r, v.fcom.delta, |p.fcom.basis|);
    for i := 0 to |gates|
      invariant Synced(p, v) && p.isOk && v.isOk && ProgramOk(gates[..i]) && ok
      invariant AuthAll(r, v.fcom.delta, ps, vs) && Values(ps) == Clear(r, gates[..i])
      invariant Queued(r, Asserted(r, gates[..i]), p.checkZeroList)
      invariant p.fcom.used == old(p.fcom.used) + VolesUsed(gates[..i], |p.fcom.basis|)
      invariant v.fcom.used == old(v.fcom.used) + VolesUsed(gates[..i], |p.fcom.basis|)
      invariant Track(ps, p.checkZeroList, p.state.pushed, p.fcom.used, log)
             == Tracked(s, challenges, start, gates[..i])
    {
      NextGate(r, gates, i, |p.fcom.basis|);
      NextTracked(s, challenges, start, gates, i);
      ok, ps, vs, log := RunGate(p, v, challenges(i), Asserted(r, gates[..i]), gates[i], ps, vs, log);
      if !ok {
        StillNonzero(r, gates, i + 1);
        return;
      }
    }
    assert gates[..|gates|] == gates;
    assert GateOk<F>(|ps|, Finalize) by { FinalizeOk<F>(|ps|); }
    ok, ps, vs, log := RunGate(p, v, challenges(|gates|), Asserted(r, gates), Finalize, ps, vs, log);
    assert Asserted(r, gates) + [] == Asserted(r, gates) && Clear(r, gates) + [] == Clear(r, gates);
  }
}
