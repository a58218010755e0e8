/** Values shared additively between two peers, each share authenticated toward the other peer. */
module Shares {
  import opened Rings
  import opened Homcom

  /** One peer's half: its own share with its mac, and its key for the other peer's share. */
  datatype Share<F> = Share(local: MacProver<F>, remote: MacVerifier<F>)

  /** a is the first peer's half and b the second's; each key belongs to the other share's mac. */
  ghost predicate Shared<F>(r: Ring<F>, da: F, db: F, a: Share<F>, b: Share<F>) {
    Auth(r, db, a.local, b.remote) && Auth(r, da, b.local, a.remote)
  }

  ghost predicate SharedAll<F>(r: Ring<F>, da: F, db: F, sa: seq<Share<F>>, sb: seq<Share<F>>) {
    |sa| == |sb| && forall i :: 0 <= i < |sa| ==> Shared(r, da, db, sa[i], sb[i])
  }

  function Clear<F>(r: Ring<F>, a: Share<F>, b: Share<F>): F {
    r.add(a.local.x, b.local.x)
  }

  function Clears<F>(r: Ring<F>, sa: seq<Share<F>>, sb: seq<Share<F>>): (xs: seq<F>)
    requires |sa| == |sb|
    ensures |xs| == |sa|
  {
    seq(|sa|, i requires 0 <= i < |sa| => Clear(r, sa[i], sb[i]))
  }

  function Locals<F>(s: seq<Share<F>>): seq<MacProver<F>> {
    seq(|s|, i requires 0 <= i < |s| => s[i].local)
  }

  function Remotes<F>(s: seq<Share<F>>): seq<MacVerifier<F>> {
    seq(|s|, i requires 0 <= i < |s| => s[i].remote)
  }

  // ---- what each peer computes on its own half ----

  function ZeroShare<F>(r: Ring<F>): Share<F> {
    Share(MacProver(r.zero, r.zero), MacVerifier(r.zero))
  }

  function AddShares<F>(r: Ring<F>, a: Share<F>, b: Share<F>): Share<F> {
    Share(AddP(r, a.local, b.local), AddV(r, a.remote, b.remote))
  }

  function NegShare<F>(r: Ring<F>, a: Share<F>): Share<F> {
    Share(NegP(r, a.local), NegV(r, a.remote))
  }

  function ScaleShare<F>(r: Ring<F>, c: F, a: Share<F>): Share<F> {
    Share(MulCstP(r, c, a.local), MulCstV(r, c, a.remote))
  }

  /** The first peer moves its share, the second its key. */
  function AddConst<F(==)>(r: Ring<F>, first: bool, delta: F, a: Share<F>, c: F): Share<F> {
    if c == r.zero then a
    else if first then Share(AddCstP(r, c, a.local), a.remote)
    else Share(a.local, AddCstV(r, delta, c, a.remote))
  }

  // ---- every operation keeps both directions of authentication and acts on the shared value ----

  lemma ZeroShared<F(!new)>(r: Ring<F>, da: F, db: F)
    requires IsRing(r)
    ensures Shared(r, da, db, ZeroShare(r), ZeroShare(r)) && Clear(r, ZeroShare(r), ZeroShare(r)) == r.zero
  {
    MulZero(r, da);
    MulZero(r, db);
    AddZero(r, r.zero);
  }

  lemma AddShared<F(!new)>(r: Ring<F>, da: F, db: F, a: Share<F>, b: Share<F>, a': Share<F>, b': Share<F>)
    requires IsRing(r) && Shared(r, da, db, a, b) && Shared(r, da, db, a', b')
    ensures Shared(r, da, db, AddShares(r, a, a'), AddShares(r, b, b'))
    ensures Clear(r, AddShares(r, a, a'), AddShares(r, b, b')) == r.add(Clear(r, a, b), Clear(r, a', b'))
  {
    AddAuth(r, db, a.local, a'.local, b.remote, b'.remote);
    AddAuth(r, da, b.local, b'.local, a.remote, a'.remote);
    AddSwap(r, a.local.x, a'.local.x, b.local.x, b'.local.x);
  }

  lemma NegShared<F(!new)>(r: Ring<F>, da: F, db: F, a: Share<F>, b: Share<F>)
    requires IsRing(r) && Shared(r, da, db, a, b)
    ensures Shared(r, da, db, NegShare(r, a), NegShare(r, b))
    ensures Clear(r, NegShare(r, a), NegShare(r, b)) == r.neg(Clear(r, a, b))
  {
    NegAuth(r, db, a.local, b.remote);
    NegAuth(r, da, b.local, a.remote);
    NegAdd(r, a.local.x, b.local.x);
  }

  lemma ScaleShared<F(!new)>(r: Ring<F>, da: F, db: F, c: F, a: Share<F>, b: Share<F>)
    requires IsRing(r) && Shared(r, da, db, a, b)
    ensures Shared(r, da, db, ScaleShare(r, c, a), ScaleShare(r, c, b))
    ensures Clear(r, ScaleShare(r, c, a), ScaleShare(r, c, b)) == r.mul(c, Clear(r, a, b))
  {
    MulCstAuth(r, db, c, a.local, b.remote);
    MulCstAuth(r, da, c, b.local, a.remote);
    Distribute(r, c, a.local.x, b.local.x);
  }

  lemma AddConstShared<F(!new)>(r: Ring<F>, da: F, db: F, a: Share<F>, b: Share<F>, c: F)
    requires IsRing(r) && Shared(r, da, db, a, b)
    ensures Shared(r, da, db, AddConst(r, true, da, a, c), AddConst(r, false, db, b, c))
    ensures Clear(r, AddConst(r, true, da, a, c), AddConst(r, false, db, b, c)) == r.add(c, Clear(r, a, b))
  {
    if c == r.zero {
      AddZero(r, Clear(r, a, b));
    } else {
      AddCstAuth(r, db, c, a.local, b.remote);
      AddAssoc(r, c, a.local.x, b.local.x);
    }
  }

  // ---- the peers ----

  /** One peer's state for one field: the direction it owns and the direction it checks. */
  class Peer<F(!new, ==)> {
    const first: bool
    const local: FComProver<F>
    const remote: FComVerifier<F>

    constructor (first: bool, local: FComProver<F>, remote: FComVerifier<F>)
      ensures this.first == first && this.local == local && this.remote == remote
    {
      this.first, this.local, this.remote := first, local, remote;
    }
  }

  /** The first peer's outbound direction is the second's inbound one, and the other way round. */
  ghost predicate Paired<F(!new)>(a: Peer<F>, b: Peer<F>)
    reads a.local, a.remote, b.local, b.remote
  {
    && a.first && !b.first
    && a.local.r == b.local.r
    && a.local != b.local && a.remote != b.remote
    && Linked(a.local, b.remote) && Linked(b.local, a.remote)
  }

  lemma SharedMacs<F>(r: Ring<F>, da: F, db: F, sa: seq<Share<F>>, sb: seq<Share<F>>)
    requires SharedAll(r, da, db, sa, sb)
    ensures AuthAll(r, db, Locals(sa), Remotes(sb)) && AuthAll(r, da, Locals(sb), Remotes(sa))
  {
  }

  /** Opening a batch toward both peers: both accept and both learn the shared values. */
  method RunOpen<F(!new, ==)>(a: Peer<F>, b: Peer<F>, hash: seq<F> -> seq<F>, sa: seq<Share<F>>, sb: seq<Share<F>>)
    returns (xa: seq<F>, xb: seq<F>, ok: bool)
    requires Paired(a, b) && Hashes(hash) && SharedAll(a.local.r, a.remote.delta, b.remote.delta, sa, sb)
    ensures ok && xa == xb == Clears(a.local.r, sa, sb)
  {
    var r := a.local.r;
    if sa == [] {
      return [], [], true;
    }
    SharedMacs(r, a.remote.delta, b.remote.delta, sa, sb);
    var fromA, macA := a.local.Open(hash, Locals(sa));
    var okB := b.remote.Open(hash, Remotes(sb), fromA, macA);
    OpenExact(r, b.remote.delta, hash(fromA), Locals(sa), Remotes(sb), fromA);
    var fromB, macB := b.local.Open(hash, Locals(sb));
    var okA := a.remote.Open(hash, Remotes(sa), fromB, macB);
    OpenExact(r, a.remote.delta, hash(fromB), Locals(sb), Remotes(sa), fromB);
    xa := seq(|sa|, i requires 0 <= i < |sa| => r.add(sa[i].local.x, fromB[i]));
    xb := seq(|sb|, i requires 0 <= i < |sb| => r.add(sb[i].local.x, fromA[i]));
    forall i | 0 <= i < |sa| ensures xa[i] == xb[i] == Clears(r, sa, sb)[i] {
      AddComm(r, sa[i].local.x, sb[i].local.x);
    }
    ok := okA && okB;
  }

  function Assemble<F>(local: seq<MacProver<F>>, remote: seq<MacVerifier<F>>): (s: seq<Share<F>>)
    requires |local| == |remote|
    ensures |s| == |local|
  {
    seq(|local|, i requires 0 <= i < |local| => Share(local[i], remote[i]))
  }

  /** What the owner sends: the values minus its own random shares. */
  function SubAll<F>(r: Ring<F>, xs: seq<F>, ys: seq<F>): (ds: seq<F>)
    requires |xs| == |ys|
    ensures |ds| == |xs|
  {
    seq(|xs|, i requires 0 <= i < |xs| => r.Sub(xs[i], ys[i]))
  }

  /** An owner shares the given values: it keeps the random shares and hands the differences to the other peer. */
  method RunShareOwned<F(!new, ==)>(a: Peer<F>, b: Peer<F>, values: seq<F>, randoms: seq<F>)
    returns (sa: seq<Share<F>>, sb: seq<Share<F>>)
    requires Linked(a.local, b.remote) && Linked(b.local, a.remote) && a.local.r == b.local.r
    requires a.local != b.local && a.remote != b.remote
    requires |values| == |randoms|
    modifies a.local, a.remote, b.local, b.remote
    ensures Linked(a.local, b.remote) && Linked(b.local, a.remote)
    ensures SharedAll(a.local.r, a.remote.delta, b.remote.delta, sa, sb) && Clears(a.local.r, sa, sb) == values
    ensures Values(Locals(sa)) == randoms
    ensures Locals(sa) == CommitAll(randoms, a.local.Voles(old(a.local.used), |values|))
    ensures Locals(sb)
         == CommitAll(SubAll(a.local.r, values, randoms), b.local.Voles(old(b.local.used), |values|))
    ensures a.local.used == old(a.local.used) + |values| && b.remote.used == old(b.remote.used) + |values|
    ensures b.local.used == old(b.local.used) + |values| && a.remote.used == old(a.remote.used) + |values|
  {
    var r := a.local.r;
    var ps, vs := RunInput(a.local, b.remote, randoms);
    var ps', vs' := RunInput(b.local, a.remote, SubAll(r, values, randoms));
    sa, sb := Assemble(ps, vs'), Assemble(ps', vs);
    AssembledClears(r, values, randoms, ps, ps', sa, sb);
  }

  lemma AssembledClears<F(!new)>(r: Ring<F>, values: seq<F>, randoms: seq<F>,
                                 ps: seq<MacProver<F>>, ps': seq<MacProver<F>>, sa: seq<Share<F>>, sb: seq<Share<F>>)
    requires IsRing(r) && |values| == |randoms| == |ps| == |ps'| == |sa| == |sb|
    requires Values(ps) == randoms && Values(ps') == SubAll(r, values, randoms)
    requires forall i :: 0 <= i < |sa| ==> sa[i].local == ps[i] && sb[i].local == ps'[i]
    ensures Clears(r, sa, sb) == values && Values(Locals(sa)) == randoms
  {
    forall i | 0 <= i < |sa| ensures Clears(r, sa, sb)[i] == values[i] && Values(Locals(sa))[i] == randoms[i] {
      assert Values(ps)[i] == ps[i].x && Values(ps')[i] == ps'[i].x;
      SubAdd(r, values[i], randoms[i]);
      AddComm(r, r.Sub(values[i], randoms[i]), randoms[i]);
    }
  }

  /** The owner holds the values themselves; the other peer's share is a literal zero, and so is the key for it. */
  ghost predicate OwnerHolds<F>(r: Ring<F>, values: seq<F>, sa: seq<Share<F>>, sb: seq<Share<F>>) {
    && |sa| == |sb| == |values|
    && forall i :: 0 <= i < |sa| ==>
       sa[i].local.x == values[i] && sa[i].remote == MacVerifier(r.zero) && sb[i].local == MacProver(r.zero, r.zero)
  }

  /** An owner keeps the values themselves; the other peer's share is zero and needs no mac. */
  method RunShareOwnerZero<F(!new, ==)>(a: Peer<F>, b: Peer<F>, values: seq<F>)
    returns (sa: seq<Share<F>>, sb: seq<Share<F>>)
    requires Linked(a.local, b.remote) && a.local.r == b.local.r
    modifies a.local, b.remote
    ensures Linked(a.local, b.remote)
    ensures SharedAll(a.local.r, a.remote.delta, b.remote.delta, sa, sb) && Clears(a.local.r, sa, sb) == values
    ensures OwnerHolds(a.local.r, values, sa, sb)
    ensures Locals(sa) == CommitAll(values, a.local.Voles(old(a.local.used), |values|))
    ensures a.local.used == old(a.local.used) + |values| && b.remote.used == old(b.remote.used) + |values|
  {
    var r := a.local.r;
    var ps, vs := RunInput(a.local, b.remote, values);
    var zero := ZeroShare(r);
    ZeroShared(r, a.remote.delta, b.remote.delta);
    sa := seq(|ps|, i requires 0 <= i < |ps| => Share(ps[i], zero.remote));
    sb := seq(|vs|, i requires 0 <= i < |vs| => Share(zero.local, vs[i]));
    forall i | 0 <= i < |sa| ensures Clears(r, sa, sb)[i] == ps[i].x == values[i] {
      assert Values(ps)[i] == ps[i].x;
      AddZero(r, ps[i].x);
    }
  }
}
