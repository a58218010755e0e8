/** Freshly initialised parties: where the invariants of all runs begin. */
module Startup {
  import opened Rings
  import opened PrimeField
  import opened Homcom
  import opened QuickSilver
  import opened Backend
  import opened Shares
  import MpcEdabits
  import opened EdabitConversionRun
  import opened CheddaPrg
  import opened CheddaChecks
  import opened CheddaConv

  /** What the extensions deliver to the two parties belongs together. */
  ghost predicate Supplied<F>(r: Ring<F>, delta: F, prime: F -> bool, ps: nat -> seq<MacProver<F>>,
                              vs: nat -> seq<MacVerifier<F>>) {
    Correlated(r, delta, prime, ps, Pool([], 0), vs, Pool([], 0))
  }

  /** One direction. */
  method RunInit<F(!new, ==)>(r: Ring<F>, prime: F -> bool, basis: seq<F>, delta: F, ps: nat -> seq<MacProver<F>>,
                              vs: nat -> seq<MacVerifier<F>>) returns (p: FComProver<F>, v: FComVerifier<F>)
    requires IsRing(r) && Supplied(r, delta, prime, ps, vs)
    ensures fresh(p) && fresh(v) && Linked(p, v) && p.r == r && p.prime == prime && p.basis == basis
    ensures v.delta == delta && p.used == v.used == 0
  {
    p := new FComProver(r, prime, basis, ps);
    v := new FComVerifier(r, basis, delta, vs);
  }

  /** The two sides of a circuit, ready for `Backend.RunProgram`. */
  method RunNewBackend<F(!new, ==)>(f: FComProver<F>, g: FComVerifier<F>, chi: F, noBatching: bool)
    returns (p: DmcProver<F>, v: DmcVerifier<F>)
    requires Linked(f, g)
    ensures fresh(p) && fresh(p.state) && fresh(v) && fresh(v.state) && p.fcom == f && v.fcom == g
    ensures Synced(p, v) && p.isOk && v.isOk && p.checkZeroList == [] && p.state.pushed == []
  {
    hide IsRing;
    var s := new StateProver(f.r, chi);
    var t := new StateVerifier(f.r, g.delta, chi);
    p := new DmcProver(f, s, noBatching);
    v := new DmcVerifier(g, t, noBatching);
  }

  /** Both peers in both fields: a direction each way, ready for `MpcEdabits.RunGenerate`. */
  method RunNewPeers<F(!new, ==)>(pf: FComProver<F>, vf: FComVerifier<F>, qf: FComProver<F>, wf: FComVerifier<F>,
                                  pp: FComProver<Fp>, vp: FComVerifier<Fp>, qp: FComProver<Fp>, wp: FComVerifier<Fp>)
    returns (a2: Peer<F>, b2: Peer<F>, ap: Peer<Fp>, bp: Peer<Fp>)
    requires Linked(pf, vf) && Linked(qf, wf) && pf.r == qf.r && pf != qf && vf != wf
    requires Linked(pp, vp) && Linked(qp, wp) && pp.r == qp.r == FP && pp != qp && vp != wp
    requires IsBinary(pf.r) && DrawsBits(pf) && DrawsBits(qf)
    requires {pf as object, vf, qf, wf} !! {pp as object, vp, qp, wp}
    ensures MpcEdabits.Ready(a2, b2, ap, bp)
    ensures a2.local == pf && b2.remote == vf && b2.local == qf && a2.remote == wf
    ensures ap.local == pp && bp.remote == vp && bp.local == qp && ap.remote == wp
  {
    hide IsRing;
    a2 := new Peer(true, pf, wf);
    b2 := new Peer(false, qf, vf);
    ap := new Peer(true, pp, wp);
    bp := new Peer(false, qp, vp);
  }

  /** The conversion with a generator, before its first seed. */
  method RunNewConv<F(!new, ==)>(p2: FComProver<F>, v2: FComVerifier<F>, pp: FComProver<Fp>, vp: FComVerifier<Fp>,
                                 pred: Pred, seedLength: nat, outputLength: nat, sigma: nat -> seq<nat>)
    returns (p: CheddaProver<F>, v: CheddaVerifier<F>)
    requires Linked(p2, v2) && Linked(pp, vp) && pp.r == FP && IsBinary(p2.r) && DrawsBits(p2)
    requires {p2 as object, v2} !! {pp as object, vp}
    requires pred.Available() && outputLength > seedLength > 0
    requires forall i :: SigmaOk(sigma(i), pred.Loc(), seedLength)
    ensures Ready(p, v) && p.fcom2 == p2 && v.fcom2 == v2 && p.fcomP == pp && v.fcomP == vp && p.seed2 == []
    ensures p.seedP == [] && p.prg.count == 0
    ensures p.prg.pred == pred && p.prg.seedLength == seedLength && p.prg.outputLength == outputLength
  {
    hide IsRing, IsBinary, DrawsBits, Linked;
    var g := new LocalPrg(pred, seedLength, outputLength, sigma);
    var h := new LocalPrg(pred, seedLength, outputLength, sigma);
    p := new CheddaProver(g, p2, pp);
    v := new CheddaVerifier(h, v2, vp);
    FreshReady(p, v);
  }
}
