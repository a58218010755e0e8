/** Wire memory seen two ways: as a plain environment of frames whose arguments name wires of earlier frames,
    and as the concrete layout (vectors, pool chunks, unallocated slots, addresses) that must refine it. */
module WireEnvironment {
  import opened Options

  // ---- the plain environment ----

  /** A wire that some frame owns (as opposed to one of its arguments). */
  datatype Target = Target(level: nat, id: nat)

  /** A frame: what its arguments name, the ranges allocated in it (first wire to length), the bounds announced
      when it was pushed, and whether input arguments have been passed yet. */
  datatype EnvFrame = EnvFrame(args: seq<Target>, chunks: map<nat, nat>, maxArgs: Option<nat>, limit: Option<nat>,
                               inputs: bool)

  datatype Env<X> = Env(frames: seq<EnvFrame>, store: map<Target, X>) {
    function Top(): EnvFrame
      requires frames != []
    {
      frames[|frames| - 1]
    }

    /** The wire that `id` stands for in frame l. */
    function ResolveAt(l: nat, id: nat): Target
      requires l < |frames|
    {
      if id < |frames[l].args| then frames[l].args[id] else Target(l, id)
    }

    function Resolve(id: nat): Target
      requires frames != []
    {
      ResolveAt(|frames| - 1, id)
    }
  }

  function Initial<X>(): Env<X> {
    Env([EnvFrame([], map[], None, None, false)], map[])
  }

  function EnvSet<X>(e: Env<X>, id: nat, x: X): Env<X>
    requires e.frames != []
  {
    e.(store := e.store[e.Resolve(id) := x])
  }

  function EnvPush<X>(e: Env<X>, maxArgs: Option<nat>, limit: Option<nat>): Env<X> {
    e.(frames := e.frames + [EnvFrame([], map[], maxArgs, limit, false)])
  }

  function EnvPop<X>(e: Env<X>): Env<X>
    requires e.frames != []
  {
    Env(e.frames[..|e.frames| - 1], map t | t in e.store && t.level < |e.frames| - 1 :: e.store[t])
  }

  predicate InRange(chunks: map<nat, nat>, first: nat, id: nat) {
    first in chunks && first <= id < first + chunks[first]
  }

  ghost predicate InOneChunk(chunks: map<nat, nat>, a: nat, count: nat) {
    exists f :: InRange(chunks, f, a) && a + count <= f + chunks[f]
  }

  /** The targets of `count` consecutive wires of the caller, starting at src. */
  function Targets<X>(e: Env<X>, l: nat, src: nat, count: nat): (ts: seq<Target>)
    requires l < |e.frames|
    ensures |ts| == count && forall i :: 0 <= i < count ==> ts[i] == e.ResolveAt(l, src + i)
  {
    seq(count, i requires 0 <= i < count => e.ResolveAt(l, src + i))
  }

  /** Passing wires to the callee; a range that was not allocated yet is allocated on the way (outputs only). */
  ghost function EnvSlice<X>(e: Env<X>, src: nat, count: nat, output: bool): Env<X>
    requires |e.frames| >= 2
  {
    var l := |e.frames| - 2;
    var caller, callee := e.frames[l], e.frames[l + 1];
    var caller' := if src >= |caller.args| && count > 1 && !InOneChunk(caller.chunks, src, count)
                   then caller.(chunks := caller.chunks[src := count]) else caller;
    var callee' := callee.(args := callee.args + Targets(e, l, src, count), inputs := callee.inputs || !output);
    e.(frames := e.frames[l := caller'][l + 1 := callee'])
  }

  function EnvNew<X>(e: Env<X>, first: nat, count: nat): Env<X>
    requires e.frames != []
  {
    var l := |e.frames| - 1;
    e.(frames := e.frames[l := e.frames[l].(chunks := e.frames[l].chunks[first := count])])
  }

  /** The range [first, first + count) is a union of whole chunks. */
  ghost predicate Tiled(chunks: map<nat, nat>, first: nat, count: nat)
    decreases count
  {
    first in chunks && 0 < chunks[first] <= count
    && (chunks[first] == count || Tiled(chunks, first + chunks[first], count - chunks[first]))
  }

  function EnvDelete<X>(e: Env<X>, first: nat, count: nat): Env<X>
    requires e.frames != []
  {
    var l := |e.frames| - 1;
    var chunks := e.frames[l].chunks;
    Env(e.frames[l := e.frames[l].(chunks := map f | f in chunks && !(first <= f < first + count) :: chunks[f])],
        map t | t in e.store && !(t.level == l && first <= t.id < first + count) :: e.store[t])
  }

  // ---- what a well-formed program promises ----

  ghost predicate Within<X>(e: Env<X>, t: Target) {
    && t.level < |e.frames| && |e.frames[t.level].args| <= t.id
    && (e.frames[t.level].limit.Some? ==> t.id <= |e.frames[t.level].args| + e.frames[t.level].limit.value)
  }

  /** Arguments name own wires of earlier frames, only own wires hold values, and allocated ranges are disjoint. */
  ghost predicate EnvValid<X>(e: Env<X>) {
    && e.frames != []
    && (forall l, i :: 0 <= l < |e.frames| && 0 <= i < |e.frames[l].args| ==>
          e.frames[l].args[i].level < l && Within(e, e.frames[l].args[i]))
    && (forall t :: t in e.store ==> Within(e, t))
    && (forall l :: 0 <= l < |e.frames| ==> ChunksDisjoint(e.frames[l].chunks, |e.frames[l].args|))
  }

  ghost predicate ChunksDisjoint(chunks: map<nat, nat>, low: nat) {
    && (forall f :: f in chunks ==> low <= f && chunks[f] > 0)
    && (forall f, g :: f in chunks && g in chunks && f < g ==> f + chunks[f] <= g)
  }

  /** No wire of [first, first + count) is allocated, written or passed to the callee. */
  ghost predicate Fresh<X>(e: Env<X>, l: nat, first: nat, count: nat)
    requires l < |e.frames|
  {
    && |e.frames[l].args| <= first
    && (forall i {:trigger Target(l, i)} :: first <= i < first + count ==> Target(l, i) !in e.store)
    && (forall f, i {:trigger InRange(e.frames[l].chunks, f, i)} :: first <= i < first + count ==>
         !InRange(e.frames[l].chunks, f, i))
    && (forall m, i :: l < m < |e.frames| && 0 <= i < |e.frames[m].args| ==>
          !(e.frames[m].args[i].level == l && first <= e.frames[m].args[i].id < first + count))
  }

  /** Slices are passed before the callee writes, outputs before inputs, within the announced number; a range is
      one wire, part of one allocation, or a fresh range given as output. */
  ghost predicate SliceAllowed<X>(e: Env<X>, src: nat, count: nat, output: bool) {
    && |e.frames| >= 2 && count > 0
    && (forall t: Target :: t in e.store ==> t.level < |e.frames| - 1)
    && var l := |e.frames| - 2;
       var caller, callee := e.frames[l], e.frames[l + 1];
       && (output ==> !callee.inputs)
       && callee.chunks == map[]
       && (callee.maxArgs.Some? ==> |callee.args| + count <= callee.maxArgs.value)
       && (forall i :: 0 <= i < count ==> Within(e, Targets(e, l, src, count)[i]))
       && if src < |caller.args|
          then
            && src + count <= |caller.args|
            && (count > 1 ==>
                  var t := caller.args[src];
                  && t.level < l && InOneChunk(e.frames[t.level].chunks, t.id, count)
                  && forall i :: 0 <= i < count ==> Targets(e, l, src, count)[i] == Target(t.level, t.id + i))
          else count == 1 || InOneChunk(caller.chunks, src, count) || (output && Fresh(e, l, src, count))
  }

  ghost predicate NewAllowed<X>(e: Env<X>, first: nat, count: nat) {
    e.frames != [] && count > 0 && Fresh(e, |e.frames| - 1, first, count)
  }

  // ---- what the plain environment guarantees ----

  lemma TargetsAreCallers<X>(e: Env<X>, l: nat, src: nat, count: nat, i: nat)
    requires EnvValid(e) && l < |e.frames| && i < count
    ensures Targets(e, l, src, count)[i] == e.ResolveAt(l, src + i)
    ensures e.ResolveAt(l, src + i).level <= l
  {
    if src + i < |e.frames[l].args| {
      assert e.frames[l].args[src + i].level < l;
    }
  }

  lemma SliceResolves<X>(e: Env<X>, src: nat, count: nat, output: bool, i: nat)
    requires |e.frames| >= 2 && i < count
    ensures var l, e' := |e.frames| - 2, EnvSlice(e, src, count, output);
            && |e'.frames| == |e.frames|
            && e'.Resolve(|e.frames[l + 1].args| + i) == Targets(e, l, src, count)[i]
            && e'.ResolveAt(l, src + i) == e.ResolveAt(l, src + i)
  {
  }

  /** A value written by the callee to an argument is what the caller reads from the wire it passed, after the
      return as well as before it. */
  lemma CalleeWriteIsVisible<X>(e: Env<X>, src: nat, count: nat, output: bool, i: nat, x: X)
    requires EnvValid(e) && |e.frames| >= 2 && i < count
    ensures var inside := EnvSet(EnvSlice(e, src, count, output), |e.Top().args| + i, x);
            var t := e.ResolveAt(|e.frames| - 2, src + i);
            && t in inside.store && inside.store[t] == x
            && var after := EnvPop(inside);
               && |after.frames| == |e.frames| - 1 && after.Resolve(src + i) == t
               && t in after.store && after.store[t] == x
  {
    hide Within, EnvValid, EnvSlice, Targets;
    var l := |e.frames| - 2;
    TargetsAreCallers(e, l, src, count, i);
    SliceResolves(e, src, count, output, i);
    var e' := EnvSlice(e, src, count, output);
    assert e'.Resolve(|e.Top().args| + i) == e.ResolveAt(l, src + i);
  }
}
