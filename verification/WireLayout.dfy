/** The concrete layout of wire memory, as a value, and the relation in which it refines the plain environment. */
module WireLayout {
  import opened Options
  import opened WireEnvironment

  /** A buffer: the block of memory it owns, and its length. */
  datatype Vec = Vec(block: nat, len: nat)

  /** Where a wire lives: in a block, or unallocated in the map of some frame. */
  datatype Addr = Cell(block: nat, offset: nat) | Slot(level: nat, id: nat)

  datatype Level<X> = Level(args: seq<Addr>, chunks: map<nat, Vec>, slots: map<nat, X>, vector: Vec, isVector: bool)

  /** `top` is the current frame; frames above it are kept for reuse. */
  datatype Layout<X> = Layout(levels: seq<Level<X>>, top: nat, heap: map<nat, seq<X>>)

  predicate Holding(chunks: map<nat, Vec>, f: nat, id: nat) {
    f in chunks && f <= id < f + chunks[f].len
  }

  /** The address of wire `id`, owned by level l. */
  ghost function Loc<X>(lv: Level<X>, l: nat, id: nat): Addr
    requires |lv.args| <= id
  {
    if lv.isVector then Cell(lv.vector.block, id - |lv.args|)
    else if exists f :: Holding(lv.chunks, f, id)
    then var f :| Holding(lv.chunks, f, id); Cell(lv.chunks[f].block, id - f)
    else Slot(l, id)
  }

  ghost predicate Allocated<X>(heap: map<nat, seq<X>>, v: Vec) {
    v.block in heap && |heap[v.block]| == v.len
  }

  ghost predicate LevelOk<X>(heap: map<nat, seq<X>>, lv: Level<X>) {
    && Allocated(heap, lv.vector)
    && (forall f :: f in lv.chunks ==>
         lv.chunks[f].len > 0 && Allocated(heap, lv.chunks[f]) && lv.chunks[f].block != lv.vector.block)
    && (forall f, g :: f in lv.chunks && g in lv.chunks && f < g ==>
          f + lv.chunks[f].len <= g && lv.chunks[f].block != lv.chunks[g].block)
  }

  ghost predicate Owns<X>(lv: Level<X>, b: nat) {
    b == lv.vector.block || exists f :: f in lv.chunks && lv.chunks[f].block == b
  }

  /** No block has two owners. */
  ghost predicate WellFormed<X>(s: Layout<X>) {
    && s.top < |s.levels|
    && (forall l :: 0 <= l < |s.levels| ==> LevelOk(s.heap, s.levels[l]))
    && (forall l, m, b {:trigger Owns(s.levels[l], b), Owns(s.levels[m], b)} ::
          0 <= l < m < |s.levels| ==> !(Owns(s.levels[l], b) && Owns(s.levels[m], b)))
  }

  ghost predicate Holds<X>(s: Layout<X>, a: Addr, x: X) {
    match a
    case Cell(b, o) => b in s.heap && o < |s.heap[b]| && s.heap[b][o] == x
    case Slot(l, id) => l < |s.levels| && id in s.levels[l].slots && s.levels[l].slots[id] == x
  }

  ghost predicate SameChunks(chunks: map<nat, Vec>, ranges: map<nat, nat>) {
    && (forall f :: f in chunks <==> f in ranges)
    && (forall f :: f in chunks ==> chunks[f].len == ranges[f])
  }

  ghost predicate LevelRefines<X>(s: Layout<X>, e: Env<X>, l: nat)
    requires l < |s.levels| && l < |e.frames|
  {
    var lv, fr := s.levels[l], e.frames[l];
    && |lv.args| == |fr.args|
    && (!lv.isVector ==> SameChunks(lv.chunks, fr.chunks))
    && (lv.isVector ==> fr.limit.Some? && fr.limit.value < lv.vector.len)
  }

  /** Every argument is stored at the address of the wire it names. */
  ghost predicate ArgsRefine<X>(s: Layout<X>, e: Env<X>, l: nat)
    requires l < |s.levels| && l < |e.frames|
  {
    forall i :: 0 <= i < |s.levels[l].args| && i < |e.frames[l].args| ==>
      var t := e.frames[l].args[i];
      && t.level < |s.levels| && |s.levels[t.level].args| <= t.id
      && s.levels[l].args[i] == Loc(s.levels[t.level], t.level, t.id)
  }

  ghost predicate Refines<X>(s: Layout<X>, e: Env<X>) {
    && WellFormed(s) && EnvValid(e) && |e.frames| == s.top + 1
    && (forall l :: 0 <= l <= s.top ==> LevelRefines(s, e, l) && ArgsRefine(s, e, l))
    && (forall t :: t in e.store ==>
          && t.level <= s.top && |s.levels[t.level].args| <= t.id
          && Holds(s, Loc(s.levels[t.level], t.level, t.id), e.store[t]))
  }

  // ---- addresses ----

  lemma LocIs<X>(heap: map<nat, seq<X>>, lv: Level<X>, l: nat, id: nat, f: nat)
    requires LevelOk(heap, lv) && |lv.args| <= id && !lv.isVector && Holding(lv.chunks, f, id)
    ensures Loc(lv, l, id) == Cell(lv.chunks[f].block, id - f)
  {
    var g: nat :| Holding(lv.chunks, g, id) && Loc(lv, l, id) == Cell(lv.chunks[g].block, id - g);
    if g != f {
      assert f < g || g < f;
    }
  }

  /** The address depends on the announced shape of the level only, not on the values it holds. */
  lemma LocShape<X>(heap: map<nat, seq<X>>, lv: Level<X>, heap': map<nat, seq<X>>, lv': Level<X>, l: nat, id: nat)
    requires LevelOk(heap, lv) && LevelOk(heap', lv')
    requires |lv.args| == |lv'.args| <= id && lv.isVector == lv'.isVector
    requires lv.chunks == lv'.chunks && lv.vector.block == lv'.vector.block
    ensures Loc(lv, l, id) == Loc(lv', l, id)
  {
    if !lv.isVector {
      if f: nat :| Holding(lv.chunks, f, id) {
        LocIs(heap, lv, l, id, f);
        LocIs(heap', lv', l, id, f);
      }
    }
  }

  /** An own wire within its frame's bounds has a valid address, in a block of its level or in its own slot. */
  ghost predicate LocValid<X>(s: Layout<X>, t: Target, a: Addr)
    requires t.level < |s.levels|
  {
    match a
    case Cell(b, o) => b in s.heap && o < |s.heap[b]| && Owns(s.levels[t.level], b)
    case Slot(l, id) => l == t.level && id == t.id
  }

  lemma LocIsValid<X>(s: Layout<X>, e: Env<X>, t: Target)
    requires Refines(s, e) && Within(e, t)
    ensures t.level <= s.top < |s.levels| && |s.levels[t.level].args| <= t.id
    ensures LocValid(s, t, Loc(s.levels[t.level], t.level, t.id))
  {
    hide EnvValid, ArgsRefine;
    var lv := s.levels[t.level];
    assert LevelRefines(s, e, t.level) && LevelOk(s.heap, lv);
    if !lv.isVector && exists f :: Holding(lv.chunks, f, t.id) {
      var f :| Holding(lv.chunks, f, t.id);
      LocIs(s.heap, lv, t.level, t.id, f);
    }
  }

  /** Different own wires have different addresses. */
  lemma LocInjective<X>(s: Layout<X>, e: Env<X>, t: Target, u: Target)
    requires Refines(s, e) && Within(e, t) && Within(e, u) && t != u
    ensures t.level <= s.top < |s.levels| && |s.levels[t.level].args| <= t.id && u.level <= s.top
    ensures |s.levels[u.level].args| <= u.id
    ensures Loc(s.levels[t.level], t.level, t.id) != Loc(s.levels[u.level], u.level, u.id)
  {
    LocIsValid(s, e, t);
    LocIsValid(s, e, u);
    hide EnvValid, ArgsRefine;
    if t.level == u.level {
      LocInLevel(s.heap, s.levels[t.level], t.level, t.id, u.id);
    } else {
      assert t.level < u.level || u.level < t.level;
    }
  }

  lemma LocInLevel<X>(heap: map<nat, seq<X>>, lv: Level<X>, l: nat, i: nat, j: nat)
    requires LevelOk(heap, lv) && |lv.args| <= i && |lv.args| <= j && i != j
    ensures Loc(lv, l, i) != Loc(lv, l, j)
  {
    if !lv.isVector {
      if f :| Holding(lv.chunks, f, i) {
        LocIs(heap, lv, l, i, f);
        if g :| Holding(lv.chunks, g, j) {
          LocIs(heap, lv, l, j, g);
          assert f == g || f < g || g < f;
        }
      }
    }
  }

  // ---- writing ----

  function StWrite<X>(s: Layout<X>, a: Addr, x: X): Layout<X>
    requires a.Cell? ==> a.block in s.heap && a.offset < |s.heap[a.block]|
    requires a.Slot? ==> a.level < |s.levels|
  {
    match a
    case Cell(b, o) => s.(heap := s.heap[b := s.heap[b][o := x]])
    case Slot(l, id) => s.(levels := s.levels[l := s.levels[l].(slots := s.levels[l].slots[id := x])])
  }

  lemma WriteShape<X>(s: Layout<X>, a: Addr, x: X)
    requires a.Cell? ==> a.block in s.heap && a.offset < |s.heap[a.block]|
    requires a.Slot? ==> a.level < |s.levels|
    ensures var s' := StWrite(s, a, x);
            && |s'.levels| == |s.levels| && s'.top == s.top
            && (forall l :: 0 <= l < |s.levels| ==> s'.levels[l] == s.levels[l].(slots := s'.levels[l].slots))
            && (forall b :: b in s'.heap <==> b in s.heap) && (forall b :: b in s.heap ==> |s'.heap[b]| == |s.heap[b]|)
            && Holds(s', a, x)
            && forall b: Addr, y: X :: b != a && Holds(s, b, y) ==> Holds(s', b, y)
  {
  }

  /** The same shape: nothing but values differs. */
  ghost predicate SameShape<X>(s: Layout<X>, s': Layout<X>) {
    && |s'.levels| == |s.levels| && s'.top == s.top
    && (forall l :: 0 <= l < |s.levels| ==> s'.levels[l] == s.levels[l].(slots := s'.levels[l].slots))
    && (forall b :: b in s'.heap <==> b in s.heap) && (forall b :: b in s.heap ==> |s'.heap[b]| == |s.heap[b]|)
  }

  lemma ShapeWellFormed<X>(s: Layout<X>, s': Layout<X>)
    requires WellFormed(s) && SameShape(s, s')
    ensures WellFormed(s')
  {
    forall l | 0 <= l < |s.levels|
      ensures LevelOk(s'.heap, s'.levels[l]) && forall b :: Owns(s'.levels[l], b) <==> Owns(s.levels[l], b)
    {
      assert LevelOk(s.heap, s.levels[l]);
    }
  }

  /** Nothing but values differs, so every address is the same. */
  lemma ShapeLoc<X>(s: Layout<X>, s': Layout<X>, l: nat, id: nat)
    requires WellFormed(s) && WellFormed(s') && SameShape(s, s') && l < |s.levels| && |s.levels[l].args| <= id
    ensures |s'.levels[l].args| <= id && Loc(s.levels[l], l, id) == Loc(s'.levels[l], l, id)
  {
    LocShape(s.heap, s.levels[l], s'.heap, s'.levels[l], l, id);
  }

  lemma ShapeRefines<X>(s: Layout<X>, s': Layout<X>, e: Env<X>, l: nat)
    requires WellFormed(s) && WellFormed(s') && SameShape(s, s')
    requires l < |s.levels| && l < |e.frames| && LevelRefines(s, e, l) && ArgsRefine(s, e, l)
    ensures LevelRefines(s', e, l) && ArgsRefine(s', e, l)
  {
    hide WellFormed;
    forall i | 0 <= i < |s'.levels[l].args| && i < |e.frames[l].args|
      ensures var t := e.frames[l].args[i];
              && t.level < |s'.levels| && |s'.levels[t.level].args| <= t.id
              && s'.levels[l].args[i] == Loc(s'.levels[t.level], t.level, t.id)
    {
      var t := e.frames[l].args[i];
      ShapeLoc(s, s', t.level, t.id);
    }
  }

  lemma SetEnvValid<X>(e: Env<X>, t: Target, x: X)
    requires EnvValid(e) && Within(e, t)
    ensures EnvValid(e.(store := e.store[t := x]))
  {
  }

  lemma LevelOfFrames<X>(s: Layout<X>, e: Env<X>, e': Env<X>, l: nat)
    requires l < |s.levels| && l < |e.frames| && e'.frames == e.frames && LevelRefines(s, e, l) && ArgsRefine(s, e, l)
    ensures LevelRefines(s, e', l) && ArgsRefine(s, e', l)
  {
  }

  /** Writing to the address of a wire is setting that wire in the environment, whatever name it goes by. */
  lemma SetRefines<X>(s: Layout<X>, e: Env<X>, t: Target, x: X)
    requires Refines(s, e) && Within(e, t)
    ensures t.level <= s.top < |s.levels| && |s.levels[t.level].args| <= t.id
    ensures LocValid(s, t, Loc(s.levels[t.level], t.level, t.id))
    ensures Refines(StWrite(s, Loc(s.levels[t.level], t.level, t.id), x), e.(store := e.store[t := x]))
  {
    hide StWrite, LevelRefines, ArgsRefine, EnvValid, WellFormed, Holds, Loc, Within;
    LocIsValid(s, e, t);
    var a := Loc(s.levels[t.level], t.level, t.id);
    WriteShape(s, a, x);
    var s', e' := StWrite(s, a, x), e.(store := e.store[t := x]);
    ShapeWellFormed(s, s');
    SetEnvValid(e, t, x);
    forall l | 0 <= l <= s.top ensures LevelRefines(s', e', l) && ArgsRefine(s', e', l) {
      ShapeRefines(s, s', e, l);
      LevelOfFrames(s', e, e', l);
    }
    forall u | u in e'.store
      ensures u.level <= s'.top && |s'.levels[u.level].args| <= u.id
      ensures Holds(s', Loc(s'.levels[u.level], u.level, u.id), e'.store[u])
    {
      if u != t {
        StoreWithin(e, u);
        LocInjective(s, e, t, u);
      }
      ShapeLoc(s, s', u.level, u.id);
    }
  }

  lemma StoreWithin<X>(e: Env<X>, u: Target)
    requires EnvValid(e) && u in e.store
    ensures Within(e, u)
  {
  }

  /** Reading from the address of a wire gives its value in the environment. */
  lemma GetRefines<X>(s: Layout<X>, e: Env<X>, t: Target)
    requires Refines(s, e) && t in e.store
    ensures t.level <= s.top < |s.levels| && |s.levels[t.level].args| <= t.id
    ensures Holds(s, Loc(s.levels[t.level], t.level, t.id), e.store[t])
  {
  }

  // ---- frames ----

  /** Nothing that the live frames can reach has changed. */
  ghost predicate LiveKept<X>(s: Layout<X>, s': Layout<X>, n: nat) {
    && n <= |s.levels| && n <= |s'.levels|
    && (forall l :: 0 <= l < n ==> s'.levels[l] == s.levels[l])
    && (forall l, b {:trigger Owns(s.levels[l], b)} :: 0 <= l < n && Owns(s.levels[l], b) && b in s.heap ==>
         b in s'.heap && s'.heap[b] == s.heap[b])
  }

  lemma KeptLoc<X>(s: Layout<X>, s': Layout<X>, n: nat, l: nat, id: nat)
    requires WellFormed(s) && WellFormed(s') && LiveKept(s, s', n) && l < n && |s.levels[l].args| <= id
    ensures Loc(s'.levels[l], l, id) == Loc(s.levels[l], l, id)
  {
    LocShape(s.heap, s.levels[l], s'.heap, s'.levels[l], l, id);
  }

  lemma KeptValue<X>(s: Layout<X>, s': Layout<X>, e: Env<X>, n: nat, t: Target)
    requires Refines(s, e) && WellFormed(s') && LiveKept(s, s', n) && t.level < n <= s.top + 1 && t in e.store
    ensures |s.levels[t.level].args| <= t.id && Holds(s', Loc(s'.levels[t.level], t.level, t.id), e.store[t])
  {
    hide LevelRefines, ArgsRefine, WellFormed, Loc;
    StoreWithin(e, t);
    LocIsValid(s, e, t);
    KeptLoc(s, s', n, t.level, t.id);
  }

  lemma KeptArgs<X>(s: Layout<X>, s': Layout<X>, e: Env<X>, e': Env<X>, n: nat, l: nat)
    requires WellFormed(s) && WellFormed(s') && LiveKept(s, s', n) && l < n && n <= |e.frames| && n <= |e'.frames|
    requires EnvValid(e)
    requires e'.frames[l] == e.frames[l] && LevelRefines(s, e, l) && ArgsRefine(s, e, l)
    ensures LevelRefines(s', e', l) && ArgsRefine(s', e', l)
  {
    hide WellFormed, Within;
    forall i | 0 <= i < |s'.levels[l].args| && i < |e'.frames[l].args|
      ensures var t := e'.frames[l].args[i];
              && t.level < |s'.levels| && |s'.levels[t.level].args| <= t.id
              && s'.levels[l].args[i] == Loc(s'.levels[t.level], t.level, t.id)
    {
      var t := e.frames[l].args[i];
      KeptLoc(s, s', n, t.level, t.id);
    }
  }

  lemma PushEnvValid<X>(e: Env<X>, maxArgs: Option<nat>, limit: Option<nat>)
    requires EnvValid(e)
    ensures EnvValid(EnvPush(e, maxArgs, limit))
  {
    var e' := EnvPush(e, maxArgs, limit);
    assert forall l :: 0 <= l < |e.frames| ==> e'.frames[l] == e.frames[l];
    forall t | Within(e, t) ensures Within(e', t) {
    }
  }

  /** A fresh top frame without arguments or chunks. */
  ghost predicate NewTop<X>(lv: Level<X>, limit: Option<nat>) {
    && lv.args == [] && (!lv.isVector ==> lv.chunks == map[])
    && (lv.isVector ==> limit.Some? && limit.value < lv.vector.len)
  }

  lemma PushRefines<X>(s: Layout<X>, s': Layout<X>, e: Env<X>, maxArgs: Option<nat>, limit: Option<nat>)
    requires Refines(s, e) && WellFormed(s') && s'.top == s.top + 1 && LiveKept(s, s', s.top + 1)
    requires NewTop(s'.levels[s'.top], limit)
    ensures Refines(s', EnvPush(e, maxArgs, limit))
  {
    assert s'.top < |s'.levels|;
    hide Holds, Loc, Within, WellFormed, Owns, LiveKept, NewTop, LevelRefines, ArgsRefine;
    var e' := EnvPush(e, maxArgs, limit);
    PushEnvValid(e, maxArgs, limit);
    hide EnvValid;
    NewTopRefines(s', e', limit);
    forall l | 0 <= l <= s.top ensures LevelRefines(s', e', l) && ArgsRefine(s', e', l) {
      KeptArgs(s, s', e, e', s.top + 1, l);
    }
    forall t | t in e'.store
      ensures t.level <= s'.top && |s'.levels[t.level].args| <= t.id
      ensures Holds(s', Loc(s'.levels[t.level], t.level, t.id), e'.store[t])
    {
      KeptValue(s, s', e, s.top + 1, t);
    }
  }

  lemma NewTopRefines<X>(s: Layout<X>, e: Env<X>, limit: Option<nat>)
    requires s.top < |s.levels| && |e.frames| == s.top + 1 && NewTop(s.levels[s.top], limit)
    requires e.Top().args == [] && e.Top().chunks == map[] && e.Top().limit == limit
    ensures LevelRefines(s, e, s.top) && ArgsRefine(s, e, s.top)
  {
  }

  lemma PopEnvValid<X>(e: Env<X>)
    requires EnvValid(e) && |e.frames| > 1
    ensures EnvValid(EnvPop(e))
  {
    var e' := EnvPop(e);
    assert forall l :: 0 <= l < |e'.frames| ==> e'.frames[l] == e.frames[l];
    forall t: Target | Within(e, t) && t.level < |e'.frames| ensures Within(e', t) {
    }
  }

  lemma PopRefines<X>(s: Layout<X>, s': Layout<X>, e: Env<X>)
    requires Refines(s, e) && s.top > 0 && WellFormed(s') && s'.top == s.top - 1 && LiveKept(s, s', s.top)
    ensures Refines(s', EnvPop(e))
  {
    hide Holds, Loc, Within, WellFormed, EnvValid;
    var e' := EnvPop(e);
    PopEnvValid(e);
    forall l | 0 <= l <= s'.top ensures LevelRefines(s', e', l) && ArgsRefine(s', e', l) {
      KeptArgs(s, s', e, e', s.top, l);
    }
    forall t | t in e'.store
      ensures t.level <= s'.top && |s'.levels[t.level].args| <= t.id
      ensures Holds(s', Loc(s'.levels[t.level], t.level, t.id), e'.store[t])
    {
      KeptValue(s, s', e, s.top, t);
    }
  }

  // ---- allocating a range ----

  function AddRange<X>(e: Env<X>, l: nat, first: nat, count: nat): Env<X>
    requires l < |e.frames|
  {
    e.(frames := e.frames[l := e.frames[l].(chunks := e.frames[l].chunks[first := count])])
  }

  function AddChunk<X>(s: Layout<X>, l: nat, first: nat, v: Vec, contents: seq<X>): Layout<X>
    requires l < |s.levels|
  {
    s.(levels := s.levels[l := s.levels[l].(chunks := s.levels[l].chunks[first := v])],
       heap := s.heap[v.block := contents])
  }

  lemma AddRangeValid<X>(e: Env<X>, l: nat, first: nat, count: nat)
    requires EnvValid(e) && l < |e.frames| && count > 0 && Fresh(e, l, first, count)
    ensures EnvValid(AddRange(e, l, first, count))
  {
    var e' := AddRange(e, l, first, count);
    forall t | Within(e, t) ensures Within(e', t) {
    }
    RangesStayDisjoint(e.frames[l].chunks, |e.frames[l].args|, first, count);
  }

  lemma RangesStayDisjoint(chunks: map<nat, nat>, low: nat, first: nat, count: nat)
    requires ChunksDisjoint(chunks, low) && low <= first && count > 0
    requires forall f, i {:trigger InRange(chunks, f, i)} :: first <= i < first + count ==> !InRange(chunks, f, i)
    ensures ChunksDisjoint(chunks[first := count], low) && first !in chunks
    ensures forall f :: f in chunks ==> f + chunks[f] <= first || first + count <= f
  {
    assert !InRange(chunks, first, first);
    forall f | f in chunks ensures f + chunks[f] <= first || first + count <= f {
      assert !InRange(chunks, f, first);
      assert !(first <= f < first + count) || !InRange(chunks, f, f);
    }
  }

  lemma LevelOkElsewhere<X>(heap: map<nat, seq<X>>, lv: Level<X>, block: nat, contents: seq<X>)
    requires LevelOk(heap, lv) && block !in heap
    ensures LevelOk(heap[block := contents], lv) && !Owns(lv, block)
  {
  }

  lemma LevelOkAdd<X>(heap: map<nat, seq<X>>, lv: Level<X>, first: nat, v: Vec)
    requires LevelOk(heap, lv) && Allocated(heap, v) && !Owns(lv, v.block) && v.len > 0 && first !in lv.chunks
    requires forall f :: f in lv.chunks ==> f + lv.chunks[f].len <= first || first + v.len <= f
    ensures LevelOk(heap, lv.(chunks := lv.chunks[first := v]))
    ensures forall b :: Owns(lv.(chunks := lv.chunks[first := v]), b) <==> Owns(lv, b) || b == v.block
  {
    var chunks, chunks' := lv.chunks, lv.chunks[first := v];
    assert chunks'[first] == v;
    assert v.block != lv.vector.block && forall f :: f in chunks ==> chunks[f].block != v.block;
    forall f | f in chunks' ensures f == first || (f in chunks && chunks'[f] == chunks[f]) {
    }
    forall f, g | f in chunks' && g in chunks' && f < g
      ensures f + chunks'[f].len <= g && chunks'[f].block != chunks'[g].block
    {
      if f != first && g != first {
        assert f in chunks && g in chunks;
      }
    }
    OwnsAdded(lv, first, v);
  }

  lemma OwnsAdded<X>(lv: Level<X>, first: nat, v: Vec)
    requires first !in lv.chunks
    ensures forall b :: Owns(lv.(chunks := lv.chunks[first := v]), b) <==> Owns(lv, b) || b == v.block
  {
    var lv' := lv.(chunks := lv.chunks[first := v]);
    assert lv'.chunks[first] == v;
    forall b ensures Owns(lv', b) <==> Owns(lv, b) || b == v.block {
      if b != lv.vector.block && Owns(lv, b) {
        var f :| f in lv.chunks && lv.chunks[f].block == b;
        assert f in lv'.chunks && lv'.chunks[f].block == b;
      }
    }
  }

  lemma AddChunkLevel<X>(s: Layout<X>, l: nat, first: nat, v: Vec, contents: seq<X>, ranges: map<nat, nat>, m: nat)
    requires WellFormed(s) && l < |s.levels| && v.block !in s.heap && v.len > 0 && |contents| == v.len && m < |s.levels|
    requires SameChunks(s.levels[l].chunks, ranges) && first !in ranges
    requires forall f :: f in ranges ==> f + ranges[f] <= first || first + v.len <= f
    ensures var s' := AddChunk(s, l, first, v, contents);
            && LevelOk(s'.heap, s'.levels[m]) && !Owns(s.levels[m], v.block)
            && forall b :: Owns(s'.levels[m], b) <==> Owns(s.levels[m], b) || (m == l && b == v.block)
  {
    LevelOkElsewhere(s.heap, s.levels[m], v.block, contents);
    hide WellFormed, LevelOk, Owns;
    if m == l {
      LevelOkAdd(s.heap[v.block := contents], s.levels[l], first, v);
    }
  }

  lemma AddChunkOk<X>(s: Layout<X>, l: nat, first: nat, v: Vec, contents: seq<X>, ranges: map<nat, nat>)
    requires WellFormed(s) && l < |s.levels| && v.block !in s.heap && v.len > 0 && |contents| == v.len
    requires SameChunks(s.levels[l].chunks, ranges) && first !in ranges
    requires forall f :: f in ranges ==> f + ranges[f] <= first || first + v.len <= f
    ensures WellFormed(AddChunk(s, l, first, v, contents))
  {
    hide LevelOk, Owns, SameChunks;
    var s' := AddChunk(s, l, first, v, contents);
    forall m | 0 <= m < |s.levels|
      ensures LevelOk(s'.heap, s'.levels[m]) && !Owns(s.levels[m], v.block)
      ensures forall b :: Owns(s'.levels[m], b) <==> Owns(s.levels[m], b) || (m == l && b == v.block)
    {
      AddChunkLevel(s, l, first, v, contents, ranges, m);
    }
  }

  lemma AddChunkLoc<X>(s: Layout<X>, s': Layout<X>, l: nat, first: nat, v: Vec, contents: seq<X>, m: nat, id: nat)
    requires WellFormed(s) && WellFormed(s') && l < |s.levels| && s' == AddChunk(s, l, first, v, contents)
    requires first !in s.levels[l].chunks
    requires m < |s.levels| && |s.levels[m].args| <= id
    requires (m == l ==> !s.levels[l].isVector && !(first <= id < first + v.len))
    ensures Loc(s'.levels[m], m, id) == Loc(s.levels[m], m, id)
  {
    assert LevelOk(s.heap, s.levels[m]) && LevelOk(s'.heap, s'.levels[m]);
    if m != l || s.levels[m].isVector {
      LocShape(s.heap, s.levels[m], s'.heap, s'.levels[m], m, id);
    } else if f: nat :| Holding(s.levels[m].chunks, f, id) {
      LocIs(s.heap, s.levels[m], m, id, f);
      LocIs(s'.heap, s'.levels[m], m, id, f);
    } else {
      assert forall f :: Holding(s'.levels[m].chunks, f, id) ==> f == first || Holding(s.levels[m].chunks, f, id);
    }
  }

  /** A fresh range gets a chunk of its own: every wire that was in use keeps its address and value. */
  lemma AddChunkRefines<X>(s: Layout<X>, e: Env<X>, l: nat, first: nat, v: Vec, contents: seq<X>)
    requires Refines(s, e) && l <= s.top && !s.levels[l].isVector && Fresh(e, l, first, v.len)
    requires v.block !in s.heap && v.len > 0 && |contents| == v.len
    ensures Refines(AddChunk(s, l, first, v, contents), AddRange(e, l, first, v.len))
  {
    var s', e' := AddChunk(s, l, first, v, contents), AddRange(e, l, first, v.len);
    AddChunkStructure(s, e, l, first, v, contents);
    hide Loc, WellFormed, Within, Holds, EnvValid, LevelRefines, ArgsRefine, LevelOk, Fresh, AddChunk;
    AddChunkLevels(s, l, first, v, contents);
    forall m | 0 <= m <= s.top ensures LevelRefines(s', e', m) && ArgsRefine(s', e', m) {
      AddChunkArgs(s, s', e, e', l, first, v, contents, m);
    }
    forall t | t in e'.store
      ensures t.level <= s'.top && |s'.levels[t.level].args| <= t.id
      ensures Holds(s', Loc(s'.levels[t.level], t.level, t.id), e'.store[t])
    {
      AddChunkValue(s, s', e, l, first, v, contents, t);
    }
  }

  lemma FreshUnstored<X>(e: Env<X>, l: nat, first: nat, count: nat, t: Target)
    requires l < |e.frames| && Fresh(e, l, first, count) && t in e.store
    ensures !(t.level == l && first <= t.id < first + count)
  {
    assert t == Target(t.level, t.id);
  }

  lemma AddChunkValue<X>(s: Layout<X>, s': Layout<X>, e: Env<X>, l: nat, first: nat, v: Vec, contents: seq<X>,
                         t: Target)
    requires Refines(s, e) && WellFormed(s') && l <= s.top && !s.levels[l].isVector && Fresh(e, l, first, v.len)
    requires v.block !in s.heap
    requires s' == AddChunk(s, l, first, v, contents) && first !in s.levels[l].chunks && t in e.store
    ensures t.level <= s.top && |s'.levels[t.level].args| <= t.id
    ensures Holds(s', Loc(s'.levels[t.level], t.level, t.id), e.store[t])
  {
    assert s.top < |s.levels|;
    FreshUnstored(e, l, first, v.len, t);
    AddChunkLevels(s, l, first, v, contents);
    hide Loc, WellFormed, Within, Holds, EnvValid, LevelRefines, ArgsRefine, LevelOk, Fresh, AddChunk;
    AddChunkLoc(s, s', l, first, v, contents, t.level, t.id);
    HoldsKept(s, s', Loc(s.levels[t.level], t.level, t.id), e.store[t], v.block);
  }

  lemma AddChunkLevels<X>(s: Layout<X>, l: nat, first: nat, v: Vec, contents: seq<X>)
    requires l < |s.levels|
    ensures var s' := AddChunk(s, l, first, v, contents);
            && |s'.levels| == |s.levels| && s'.top == s.top
            && (forall m :: 0 <= m < |s.levels| ==>
                 s'.levels[m].slots == s.levels[m].slots && s'.levels[m].args == s.levels[m].args)
            && forall b :: b in s.heap && b != v.block ==> b in s'.heap && s'.heap[b] == s.heap[b]
  {
  }

  lemma AddChunkStructure<X>(s: Layout<X>, e: Env<X>, l: nat, first: nat, v: Vec, contents: seq<X>)
    requires Refines(s, e) && l <= s.top && !s.levels[l].isVector && Fresh(e, l, first, v.len)
    requires v.block !in s.heap && v.len > 0 && |contents| == v.len
    ensures s.top < |s.levels| && first !in e.frames[l].chunks && first !in s.levels[l].chunks
    ensures WellFormed(AddChunk(s, l, first, v, contents)) && EnvValid(AddRange(e, l, first, v.len))
  {
    assert LevelRefines(s, e, l);
    AddRangeValid(e, l, first, v.len);
    RangesStayDisjoint(e.frames[l].chunks, |e.frames[l].args|, first, v.len);
    AddChunkOk(s, l, first, v, contents, e.frames[l].chunks);
  }

  lemma HoldsKept<X>(s: Layout<X>, s': Layout<X>, a: Addr, x: X, block: nat)
    requires Holds(s, a, x) && block !in s.heap && |s'.levels| == |s.levels|
    requires forall l :: 0 <= l < |s.levels| ==> s'.levels[l].slots == s.levels[l].slots
    requires forall b :: b in s.heap ==> b in s'.heap && s'.heap[b] == s.heap[b]
    ensures Holds(s', a, x)
  {
  }

  lemma AddChunkArgs<X>(s: Layout<X>, s': Layout<X>, e: Env<X>, e': Env<X>, l: nat, first: nat, v: Vec,
                        contents: seq<X>, m: nat)
    requires Refines(s, e) && WellFormed(s') && l <= s.top && !s.levels[l].isVector && m <= s.top
    requires Fresh(e, l, first, v.len)
    requires first !in s.levels[l].chunks
    requires s' == AddChunk(s, l, first, v, contents) && e' == AddRange(e, l, first, v.len)
    requires first !in e.frames[l].chunks
    ensures LevelRefines(s', e', m) && ArgsRefine(s', e', m)
  {
    hide Loc, Within, Holds, LevelOk, Owns;
    assert LevelRefines(s, e, l) && LevelRefines(s, e, m) && ArgsRefine(s, e, m);
    assert LevelRefines(s', e', m) by {
      if m == l && !s.levels[l].isVector {
        AddSameChunks(s.levels[l].chunks, e.frames[l].chunks, first, v);
      }
    }
    hide LevelRefines, WellFormed;
    forall i | 0 <= i < |s'.levels[m].args| && i < |e'.frames[m].args|
      ensures var t := e'.frames[m].args[i];
              && t.level < |s'.levels| && |s'.levels[t.level].args| <= t.id
              && s'.levels[m].args[i] == Loc(s'.levels[t.level], t.level, t.id)
    {
      var t := e.frames[m].args[i];
      FreshAvoids(e, l, first, v.len, m, i);
      AddChunkLoc(s, s', l, first, v, contents, t.level, t.id);
    }
  }

  lemma AddSameChunks(chunks: map<nat, Vec>, ranges: map<nat, nat>, first: nat, v: Vec)
    requires SameChunks(chunks, ranges)
    ensures SameChunks(chunks[first := v], ranges[first := v.len])
  {
  }

  lemma FreshAvoids<X>(e: Env<X>, l: nat, first: nat, count: nat, m: nat, i: nat)
    requires EnvValid(e) && l < |e.frames| && m < |e.frames| && i < |e.frames[m].args| && Fresh(e, l, first, count)
    ensures var t := e.frames[m].args[i]; t.level < m && !(t.level == l && first <= t.id < first + count)
  {
    hide Within;
    assert e.frames[m].args[i].level < m;
  }

  /** In a vector frame a range needs no chunk. */
  lemma AddRangeRefines<X>(s: Layout<X>, e: Env<X>, l: nat, first: nat, count: nat)
    requires Refines(s, e) && l <= s.top && s.levels[l].isVector && count > 0 && Fresh(e, l, first, count)
    ensures Refines(s, AddRange(e, l, first, count))
  {
    var e' := AddRange(e, l, first, count);
    AddRangeValid(e, l, first, count);
    hide Loc, WellFormed, Within, Holds, EnvValid;
    forall m | 0 <= m <= s.top ensures LevelRefines(s, e', m) && ArgsRefine(s, e', m) {
      assert LevelRefines(s, e, m) && ArgsRefine(s, e, m);
    }
  }

  // ---- passing arguments ----

  function PushArgs<X>(s: Layout<X>, addrs: seq<Addr>): Layout<X>
    requires s.top < |s.levels|
  {
    s.(levels := s.levels[s.top := s.levels[s.top].(args := s.levels[s.top].args + addrs)])
  }

  function PushTargets<X>(e: Env<X>, ts: seq<Target>, output: bool): Env<X>
    requires e.frames != []
  {
    var l := |e.frames| - 1;
    e.(frames := e.frames[l := e.frames[l].(args := e.frames[l].args + ts, inputs := e.frames[l].inputs || !output)])
  }

  lemma PushTargetsValid<X>(e: Env<X>, ts: seq<Target>, output: bool)
    requires EnvValid(e) && e.Top().chunks == map[]
    requires forall t :: t in e.store ==> t.level < |e.frames| - 1
    requires forall i :: 0 <= i < |ts| ==> ts[i].level < |e.frames| - 1 && Within(e, ts[i])
    ensures EnvValid(PushTargets(e, ts, output))
  {
    var e' := PushTargets(e, ts, output);
    forall t: Target | Within(e, t) && t.level < |e.frames| - 1 ensures Within(e', t) {
    }
    forall l, i | 0 <= l < |e'.frames| && 0 <= i < |e'.frames[l].args|
      ensures e'.frames[l].args[i].level < l && Within(e', e'.frames[l].args[i])
    {
      if l < |e.frames| - 1 || i < |e.Top().args| {
        assert e'.frames[l].args[i] == e.frames[l].args[i];
      } else {
        assert e'.frames[l].args[i] == ts[i - |e.Top().args|];
      }
    }
  }

  lemma PushArgsOk<X>(s: Layout<X>, addrs: seq<Addr>)
    requires WellFormed(s)
    ensures WellFormed(PushArgs(s, addrs))
  {
    var s' := PushArgs(s, addrs);
    forall m | 0 <= m < |s.levels|
      ensures LevelOk(s'.heap, s'.levels[m]) && forall b :: Owns(s'.levels[m], b) <==> Owns(s.levels[m], b)
    {
      assert LevelOk(s.heap, s.levels[m]);
    }
  }

  lemma PushArgsRefines<X>(s: Layout<X>, e: Env<X>, addrs: seq<Addr>, ts: seq<Target>, output: bool)
    requires Refines(s, e) && e.Top().chunks == map[] && |addrs| == |ts|
    requires forall t :: t in e.store ==> t.level < |e.frames| - 1
    requires forall i :: 0 <= i < |ts| ==> ts[i].level < s.top && Within(e, ts[i])
    requires forall i :: 0 <= i < |ts| ==>
      |s.levels[ts[i].level].args| <= ts[i].id && addrs[i] == Loc(s.levels[ts[i].level], ts[i].level, ts[i].id)
    ensures Refines(PushArgs(s, addrs), PushTargets(e, ts, output))
  {
    var s', e' := PushArgs(s, addrs), PushTargets(e, ts, output);
    PushTargetsValid(e, ts, output);
    PushArgsOk(s, addrs);
    assert s.top < |s.levels|;
    hide Within, WellFormed, EnvValid, Loc, Holds, LevelRefines, ArgsRefine;
    forall m | 0 <= m <= s.top ensures LevelRefines(s', e', m) && ArgsRefine(s', e', m) {
      PushedArgs(s, s', e, e', addrs, ts, output, m);
    }
    forall t | t in e'.store
      ensures t.level <= s'.top && |s'.levels[t.level].args| <= t.id
      ensures Holds(s', Loc(s'.levels[t.level], t.level, t.id), e'.store[t])
    {
      PushedValue(s, s', e, addrs, t);
    }
  }

  lemma PushedValue<X>(s: Layout<X>, s': Layout<X>, e: Env<X>, addrs: seq<Addr>, t: Target)
    requires Refines(s, e) && s.top < |s.levels| && s' == PushArgs(s, addrs) && t in e.store && t.level < s.top
    ensures |s'.levels[t.level].args| <= t.id && Holds(s', Loc(s'.levels[t.level], t.level, t.id), e.store[t])
  {
    hide Within, WellFormed, EnvValid, Loc, Holds, LevelRefines, ArgsRefine;
    assert s'.levels[t.level] == s.levels[t.level];
    HoldsInLevels(s, s', Loc(s.levels[t.level], t.level, t.id), e.store[t]);
  }

  lemma HoldsInLevels<X>(s: Layout<X>, s': Layout<X>, a: Addr, x: X)
    requires Holds(s, a, x) && |s'.levels| == |s.levels| && s'.heap == s.heap
    requires forall l :: 0 <= l < |s.levels| ==> s'.levels[l].slots == s.levels[l].slots
    ensures Holds(s', a, x)
  {
  }

  lemma PushedArgs<X>(s: Layout<X>, s': Layout<X>, e: Env<X>, e': Env<X>, addrs: seq<Addr>, ts: seq<Target>,
                      output: bool, m: nat)
    requires Refines(s, e) && e.Top().chunks == map[] && |addrs| == |ts| && m <= s.top
    requires s' == PushArgs(s, addrs) && e' == PushTargets(e, ts, output)
    requires forall i :: 0 <= i < |ts| ==> ts[i].level < s.top
    requires forall i :: 0 <= i < |ts| ==>
      |s.levels[ts[i].level].args| <= ts[i].id && addrs[i] == Loc(s.levels[ts[i].level], ts[i].level, ts[i].id)
    ensures LevelRefines(s', e', m) && ArgsRefine(s', e', m)
  {
    PushedLevel(s, s', e, e', addrs, ts, output, m);
    assert ArgsRefine(s, e, m);
    assert s.top < |s.levels|;
    hide Within, WellFormed, Loc, Holds, LevelOk, Owns, LevelRefines;
    forall i | 0 <= i < |s'.levels[m].args| && i < |e'.frames[m].args|
      ensures var t := e'.frames[m].args[i];
              && t.level < |s'.levels| && |s'.levels[t.level].args| <= t.id
              && s'.levels[m].args[i] == Loc(s'.levels[t.level], t.level, t.id)
    {
      PushedArg(s, s', e, e', addrs, ts, output, m, i);
    }
  }

  lemma PushedLevel<X>(s: Layout<X>, s': Layout<X>, e: Env<X>, e': Env<X>, addrs: seq<Addr>, ts: seq<Target>,
                       output: bool, m: nat)
    requires Refines(s, e) && e.Top().chunks == map[] && |addrs| == |ts| && m <= s.top
    requires s' == PushArgs(s, addrs) && e' == PushTargets(e, ts, output)
    ensures LevelRefines(s', e', m) && |s.levels[m].args| == |e.frames[m].args|
  {
    assert LevelRefines(s, e, m);
    hide Within, WellFormed, Loc, Holds, LevelOk, Owns, ArgsRefine, EnvValid;
  }

  lemma PushedArg<X>(s: Layout<X>, s': Layout<X>, e: Env<X>, e': Env<X>, addrs: seq<Addr>, ts: seq<Target>,
                     output: bool, m: nat, i: nat)
    requires Refines(s, e) && |addrs| == |ts| && m <= s.top < |s.levels| && ArgsRefine(s, e, m)
    requires |s.levels[m].args| == |e.frames[m].args|
    requires s' == PushArgs(s, addrs) && e' == PushTargets(e, ts, output)
    requires i < |s'.levels[m].args| && i < |e'.frames[m].args|
    requires forall i :: 0 <= i < |ts| ==> ts[i].level < s.top
    requires forall i :: 0 <= i < |ts| ==>
      |s.levels[ts[i].level].args| <= ts[i].id && addrs[i] == Loc(s.levels[ts[i].level], ts[i].level, ts[i].id)
    ensures var t := e'.frames[m].args[i];
            && t.level < |s'.levels| && |s'.levels[t.level].args| <= t.id
            && s'.levels[m].args[i] == Loc(s'.levels[t.level], t.level, t.id)
  {
    hide Within, WellFormed, Loc, Holds, LevelOk, Owns, LevelRefines;
    var t := e'.frames[m].args[i];
    var k := |s.levels[m].args|;
    if i < k {
      assert t == e.frames[m].args[i] && s'.levels[m].args[i] == s.levels[m].args[i];
      assert t.level < m;
    } else {
      assert t == ts[i - k] && s'.levels[m].args[i] == addrs[i - k];
    }
    assert s'.levels[t.level] == s.levels[t.level];
  }

  // ---- freeing a chunk ----

  function Dropped(chunks: map<nat, Vec>, first: nat): map<nat, Vec> {
    map f | f in chunks && f != first :: chunks[f]
  }

  function RemoveChunk<X>(s: Layout<X>, first: nat): Layout<X>
    requires s.top < |s.levels| && first in s.levels[s.top].chunks
  {
    var lv := s.levels[s.top];
    s.(levels := s.levels[s.top := lv.(chunks := Dropped(lv.chunks, first))],
       heap := map b | b in s.heap && b != lv.chunks[first].block :: s.heap[b])
  }

  lemma RemoveChunkOk<X>(s: Layout<X>, first: nat)
    requires WellFormed(s) && first in s.levels[s.top].chunks
    ensures WellFormed(RemoveChunk(s, first))
  {
    var s' := RemoveChunk(s, first);
    var gone := s.levels[s.top].chunks[first].block;
    assert LevelOk(s.heap, s.levels[s.top]) && Owns(s.levels[s.top], gone);
    forall m | 0 <= m < |s.levels|
      ensures LevelOk(s'.heap, s'.levels[m]) && forall b :: Owns(s'.levels[m], b) ==> Owns(s.levels[m], b)
    {
      assert LevelOk(s.heap, s.levels[m]);
      if m != s.top {
        assert !Owns(s.levels[m], gone);
        assert forall f :: f in s.levels[m].chunks ==> Owns(s.levels[m], s.levels[m].chunks[f].block);
      }
    }
  }

  /** Removing one whole chunk, in a frame whose wires nobody else names. */
  lemma RemoveChunkRefines<X>(s: Layout<X>, e: Env<X>, first: nat)
    requires Refines(s, e) && !s.levels[s.top].isVector && first in e.Top().chunks
    ensures first in s.levels[s.top].chunks && s.levels[s.top].chunks[first].len == e.Top().chunks[first]
    ensures Refines(RemoveChunk(s, first), EnvDelete(e, first, e.Top().chunks[first]))
  {
    hide Within, Loc, Holds, LevelOk, Owns, ChunksDisjoint;
    var l, count := s.top, e.Top().chunks[first];
    assert LevelRefines(s, e, l);
    var s', e' := RemoveChunk(s, first), EnvDelete(e, first, count);
    RemoveChunkOk(s, first);
    DeleteValid(e, first, count);
    hide WellFormed, EnvValid;
    forall m | 0 <= m <= s.top ensures LevelRefines(s', e', m) && ArgsRefine(s', e', m) {
      assert LevelRefines(s, e, m) && ArgsRefine(s, e, m);
      RemovedLevel(s, s', e, e', first, m);
      RemovedArgs(s, s', e, e', first, m);
    }
    hide LevelRefines, ArgsRefine, EnvValid, RemoveChunk;
    forall t | t in e'.store
      ensures t.level <= s'.top && |s'.levels[t.level].args| <= t.id
      ensures Holds(s', Loc(s'.levels[t.level], t.level, t.id), e'.store[t])
    {
      RemovedValue(s, s', e, first, t);
    }
  }

  lemma RemovedLevel<X>(s: Layout<X>, s': Layout<X>, e: Env<X>, e': Env<X>, first: nat, m: nat)
    requires Refines(s, e) && m <= s.top && first in e.Top().chunks && first in s.levels[s.top].chunks
    requires LevelRefines(s, e, m)
    requires s' == RemoveChunk(s, first) && e' == EnvDelete(e, first, e.Top().chunks[first])
    ensures LevelRefines(s', e', m)
  {
    hide Refines;
    TopRanges(s, e);
    if m == s.top {
      OneChunkGone(e.Top().chunks, |e.Top().args|, first);
      hide ChunksDisjoint;
      assert e'.frames[m].chunks == map f | f in e.frames[m].chunks && f != first :: e.frames[m].chunks[f];
    } else {
      assert s'.levels[m] == s.levels[m] && e'.frames[m] == e.frames[m];
    }
  }

  lemma TopRanges<X>(s: Layout<X>, e: Env<X>)
    requires Refines(s, e)
    ensures s.top < |s.levels| && |e.frames| == s.top + 1 && ChunksDisjoint(e.Top().chunks, |e.Top().args|)
  {
    hide LevelRefines, ArgsRefine, LevelOk, Owns, ChunksDisjoint, Holds, Loc, Within;
  }

  lemma OneChunkGone(chunks: map<nat, nat>, low: nat, first: nat)
    requires ChunksDisjoint(chunks, low) && first in chunks
    ensures (map f | f in chunks && !(first <= f < first + chunks[first]) :: chunks[f])
         == (map f | f in chunks && f != first :: chunks[f])
  {
  }

  lemma RemovedArgs<X>(s: Layout<X>, s': Layout<X>, e: Env<X>, e': Env<X>, first: nat, m: nat)
    requires Refines(s, e) && m <= s.top && first in s.levels[s.top].chunks && s' == RemoveChunk(s, first)
    requires |e'.frames| == |e.frames| && e'.frames[m].args == e.frames[m].args && ArgsRefine(s, e, m)
    ensures ArgsRefine(s', e', m)
  {
    assert s.top < |s.levels|;
    hide Within, WellFormed, Loc, Holds, LevelRefines;
    assert s'.levels[m].args == s.levels[m].args;
    forall i | 0 <= i < |s'.levels[m].args| && i < |e'.frames[m].args|
      ensures var t := e'.frames[m].args[i];
              && t.level < |s'.levels| && |s'.levels[t.level].args| <= t.id
              && s'.levels[m].args[i] == Loc(s'.levels[t.level], t.level, t.id)
    {
      var t := e.frames[m].args[i];
      assert t.level < m;
      assert s'.levels[t.level] == s.levels[t.level];
    }
  }

  lemma RemovedValue<X>(s: Layout<X>, s': Layout<X>, e: Env<X>, first: nat, t: Target)
    requires Refines(s, e) && s.top < |s.levels| && first in s.levels[s.top].chunks && s' == RemoveChunk(s, first)
    requires WellFormed(s') && !s.levels[s.top].isVector
    requires t in e.store && !(t.level == s.top && Holding(s.levels[s.top].chunks, first, t.id))
    ensures t.level <= s'.top && |s'.levels[t.level].args| <= t.id
    ensures Holds(s', Loc(s'.levels[t.level], t.level, t.id), e.store[t])
  {
    StoreWithin(e, t);
    LocIsValid(s, e, t);
    assert LevelOk(s.heap, s.levels[s.top]) && LevelOk(s'.heap, s'.levels[s.top]);
    hide EnvValid, Within, ArgsRefine, LevelRefines;
    if t.level < s.top {
      RemovedBelow(s, s', e, first, t);
    } else {
      hide WellFormed;
      RemovedBeside(s, s', e.store[t], first, t.id);
    }
  }

  lemma RemovedBelow<X>(s: Layout<X>, s': Layout<X>, e: Env<X>, first: nat, t: Target)
    requires WellFormed(s) && t.level < s.top && first in s.levels[s.top].chunks && s' == RemoveChunk(s, first)
    requires |s.levels[t.level].args| <= t.id && t in e.store
    requires LocValid(s, t, Loc(s.levels[t.level], t.level, t.id))
    requires Holds(s, Loc(s.levels[t.level], t.level, t.id), e.store[t])
    ensures Holds(s', Loc(s'.levels[t.level], t.level, t.id), e.store[t])
  {
    hide Loc, LevelOk;
    var gone := s.levels[s.top].chunks[first].block;
    assert Owns(s.levels[s.top], gone) && !Owns(s.levels[t.level], gone);
    assert s'.levels[t.level] == s.levels[t.level];
  }

  lemma RemovedBeside<X>(s: Layout<X>, s': Layout<X>, x: X, first: nat, id: nat)
    requires s.top < |s.levels| && first in s.levels[s.top].chunks && s' == RemoveChunk(s, first)
    requires LevelOk(s.heap, s.levels[s.top]) && LevelOk(s'.heap, s'.levels[s.top]) && !s.levels[s.top].isVector
    requires |s.levels[s.top].args| <= id && !Holding(s.levels[s.top].chunks, first, id)
    requires Holds(s, Loc(s.levels[s.top], s.top, id), x)
    ensures Holds(s', Loc(s'.levels[s.top], s.top, id), x)
  {
    if f: nat :| Holding(s.levels[s.top].chunks, f, id) {
      LocIs(s.heap, s.levels[s.top], s.top, id, f);
      assert Holding(s'.levels[s.top].chunks, f, id);
      LocIs(s'.heap, s'.levels[s.top], s.top, id, f);
      assert f < first || first < f;
    } else {
      assert forall f :: Holding(s'.levels[s.top].chunks, f, id) ==> Holding(s.levels[s.top].chunks, f, id);
    }
  }

  lemma DeleteValid<X>(e: Env<X>, first: nat, count: nat)
    requires EnvValid(e)
    ensures EnvValid(EnvDelete(e, first, count))
  {
    var e' := EnvDelete(e, first, count);
    forall t | Within(e, t) ensures Within(e', t) {
    }
  }

  /** Deleting a tiled range chunk by chunk deletes the whole range. */
  lemma DeleteSplits<X>(e: Env<X>, first: nat, count: nat)
    requires e.frames != [] && Tiled(e.Top().chunks, first, count) && e.Top().chunks[first] < count
    ensures var c := e.Top().chunks[first];
            EnvDelete(EnvDelete(e, first, c), first + c, count - c) == EnvDelete(e, first, count)
  {
    var c := e.Top().chunks[first];
    hide Tiled;
    DropTwice(e.Top().chunks, first, c, count);
    var a, b := EnvDelete(EnvDelete(e, first, c), first + c, count - c), EnvDelete(e, first, count);
    assert a.frames == b.frames;
    DropStored(e.store, |e.frames| - 1, first, c, count);
  }

  lemma DeleteLeavesTiled<X>(e: Env<X>, first: nat, count: nat)
    requires e.frames != [] && Tiled(e.Top().chunks, first, count) && e.Top().chunks[first] < count
    ensures var c := e.Top().chunks[first];
            Tiled(EnvDelete(e, first, c).Top().chunks, first + c, count - c)
  {
    var c := e.Top().chunks[first];
    TiledElsewhere(e.Top().chunks, EnvDelete(e, first, c).Top().chunks, first + c, count - c);
  }

  lemma DropTwice(chunks: map<nat, nat>, first: nat, c: nat, count: nat)
    requires c <= count
    ensures var once := map f | f in chunks && !(first <= f < first + c) :: chunks[f];
            (map f | f in once && !(first + c <= f < first + c + (count - c)) :: once[f])
            == map f | f in chunks && !(first <= f < first + count) :: chunks[f]
  {
  }

  lemma DropStored<X>(store: map<Target, X>, l: nat, first: nat, c: nat, count: nat)
    requires c <= count
    ensures var once := map t | t in store && !(t.level == l && first <= t.id < first + c) :: store[t];
            (map t | t in once && !(t.level == l && first + c <= t.id < first + c + (count - c)) :: once[t])
            == map t | t in store && !(t.level == l && first <= t.id < first + count) :: store[t]
  {
  }

  lemma TiledElsewhere(chunks: map<nat, nat>, chunks': map<nat, nat>, first: nat, count: nat)
    requires Tiled(chunks, first, count)
    requires forall f :: f in chunks && first <= f ==> f in chunks' && chunks'[f] == chunks[f]
    ensures Tiled(chunks', first, count)
    decreases count
  {
    if chunks[first] != count {
      TiledElsewhere(chunks, chunks', first + chunks[first], count - chunks[first]);
    }
  }

  /** In a vector frame the deleted wires are merely forgotten. */
  lemma DeleteInVector<X>(s: Layout<X>, e: Env<X>, first: nat, count: nat)
    requires Refines(s, e) && s.levels[s.top].isVector
    ensures Refines(s, EnvDelete(e, first, count))
  {
    var e' := EnvDelete(e, first, count);
    DeleteValid(e, first, count);
    hide Loc, WellFormed, Within, Holds, EnvValid;
    forall m | 0 <= m <= s.top ensures LevelRefines(s, e', m) && ArgsRefine(s, e', m) {
      assert LevelRefines(s, e, m) && ArgsRefine(s, e, m);
    }
  }

  // ---- frames kept for reuse ----

  /** Changes above the live frames are invisible. */
  lemma DeadRefines<X>(s: Layout<X>, s': Layout<X>, e: Env<X>)
    requires Refines(s, e) && WellFormed(s') && s'.top == s.top && LiveKept(s, s', s.top + 1)
    ensures Refines(s', e)
  {
    assert s'.top < |s'.levels|;
    hide Holds, Loc, Within, WellFormed, EnvValid, Owns;
    forall l | 0 <= l <= s'.top ensures LevelRefines(s', e, l) && ArgsRefine(s', e, l) {
      KeptArgs(s, s', e, e, s.top + 1, l);
    }
    hide LevelRefines, ArgsRefine;
    forall t | t in e.store
      ensures t.level <= s'.top && |s'.levels[t.level].args| <= t.id
      ensures Holds(s', Loc(s'.levels[t.level], t.level, t.id), e.store[t])
    {
      KeptValue(s, s', e, s.top + 1, t);
    }
  }

  function Without<X>(heap: map<nat, seq<X>>, freed: set<nat>): map<nat, seq<X>> {
    map b | b in heap && b !in freed :: heap[b]
  }

  function ChunkBlocks(chunks: map<nat, Vec>): set<nat> {
    set f | f in chunks :: chunks[f].block
  }

  /** A new frame on top of the stack. */
  lemma AppendLevel<X>(s: Layout<X>, lv: Level<X>, contents: seq<X>)
    requires WellFormed(s) && lv.chunks == map[] && lv.vector.block !in s.heap && |contents| == lv.vector.len
    ensures var s' := s.(levels := s.levels + [lv], heap := s.heap[lv.vector.block := contents]);
            WellFormed(s') && LiveKept(s, s', s.top + 1)
  {
    var s' := s.(levels := s.levels + [lv], heap := s.heap[lv.vector.block := contents]);
    forall l | 0 <= l < |s.levels|
      ensures s'.levels[l] == s.levels[l] && LevelOk(s'.heap, s'.levels[l]) && !Owns(s.levels[l], lv.vector.block)
    {
      LevelOkElsewhere(s.heap, s.levels[l], lv.vector.block, contents);
    }
    hide LevelOk;
    forall b | Owns(lv, b) ensures b == lv.vector.block {
    }
    assert LevelOk(s'.heap, lv) by {
      FreshLevelOk(s'.heap, lv);
    }
    OwnersApart(s, s', |s.levels|);
  }

  lemma FreshLevelOk<X>(heap: map<nat, seq<X>>, lv: Level<X>)
    requires lv.chunks == map[] && Allocated(heap, lv.vector)
    ensures LevelOk(heap, lv)
  {
  }

  /** One level changed (or was added); it owns nothing that another level owns. */
  lemma OwnersApart<X>(s: Layout<X>, s': Layout<X>, l: nat)
    requires WellFormed(s) && s'.top == s.top && l <= |s.levels|
    requires |s'.levels| == (if l < |s.levels| then |s.levels| else l + 1)
    requires forall m :: 0 <= m < |s.levels| && m != l ==> s'.levels[m] == s.levels[m]
    requires forall m :: 0 <= m < |s'.levels| ==> LevelOk(s'.heap, s'.levels[m])
    requires forall m, b {:trigger Owns(s.levels[m], b), Owns(s'.levels[l], b)} ::
               0 <= m < |s.levels| && m != l && Owns(s.levels[m], b) ==> !Owns(s'.levels[l], b)
    ensures WellFormed(s')
  {
    hide LevelOk, Owns;
    forall i: nat, j: nat, b: nat | i < j < |s'.levels| ensures !(Owns(s'.levels[i], b) && Owns(s'.levels[j], b)) {
      if i != l && j != l {
        assert s'.levels[i] == s.levels[i] && s'.levels[j] == s.levels[j];
      }
    }
  }

  /** Freeing blocks of one level does not touch the others. */
  lemma OthersKeep<X>(s: Layout<X>, l: nat, freed: set<nat>, m: nat)
    requires WellFormed(s) && l < |s.levels| && m < |s.levels| && m != l
    requires forall b :: b in freed ==> Owns(s.levels[l], b)
    ensures LevelOk(Without(s.heap, freed), s.levels[m])
    ensures forall b :: Owns(s.levels[m], b) ==> b !in freed
  {
    assert LevelOk(s.heap, s.levels[m]);
    forall b | Owns(s.levels[m], b) ensures b !in freed {
      assert l < m || m < l;
    }
    assert Owns(s.levels[m], s.levels[m].vector.block);
    assert forall f :: f in s.levels[m].chunks ==> Owns(s.levels[m], s.levels[m].chunks[f].block);
  }

  lemma ClearChunksOk<X>(s: Layout<X>, l: nat, lv: Level<X>)
    requires WellFormed(s) && s.top < l < |s.levels| && lv.chunks == map[] && lv.vector == s.levels[l].vector
    ensures var s' := s.(levels := s.levels[l := lv], heap := Without(s.heap, ChunkBlocks(s.levels[l].chunks)));
            WellFormed(s') && LiveKept(s, s', s.top + 1)
  {
    var freed := ChunkBlocks(s.levels[l].chunks);
    var s' := s.(levels := s.levels[l := lv], heap := Without(s.heap, freed));
    assert LevelOk(s.heap, s.levels[l]);
    assert forall b :: b in freed ==> Owns(s.levels[l], b);
    forall m | 0 <= m < |s.levels| && m != l
      ensures s'.levels[m] == s.levels[m] && LevelOk(s'.heap, s'.levels[m])
      ensures forall b :: Owns(s.levels[m], b) ==> b !in freed
    {
      OthersKeep(s, l, freed, m);
    }
    assert lv.vector.block !in freed;
    FreshLevelOk(s'.heap, lv);
    assert forall b :: Owns(lv, b) ==> Owns(s.levels[l], b);
    hide LevelOk;
    forall m: nat, b: nat | m < |s.levels| && m != l && Owns(s.levels[m], b) ensures !Owns(s'.levels[l], b) {
      assert l < m || m < l;
    }
    OwnersApart(s, s', l);
  }

  /** A new vector for a frame that is not live, in place of the old one. */
  lemma NewVectorOk<X>(s: Layout<X>, l: nat, lv: Level<X>, contents: seq<X>)
    requires WellFormed(s) && s.top < l < |s.levels| && lv.chunks == s.levels[l].chunks
    requires lv.vector.block !in s.heap && |contents| == lv.vector.len
    ensures var s' := s.(levels := s.levels[l := lv],
                         heap := Without(s.heap[lv.vector.block := contents], {s.levels[l].vector.block}));
            WellFormed(s') && LiveKept(s, s', s.top + 1)
  {
    var freed, b0 := {s.levels[l].vector.block}, lv.vector.block;
    var s' := s.(levels := s.levels[l := lv], heap := Without(s.heap[b0 := contents], freed));
    assert LevelOk(s.heap, s.levels[l]);
    assert Owns(s.levels[l], s.levels[l].vector.block);
    forall m | 0 <= m < |s.levels| && m != l
      ensures s'.levels[m] == s.levels[m] && LevelOk(s'.heap, s'.levels[m])
      ensures !Owns(s.levels[m], b0) && forall b :: Owns(s.levels[m], b) ==> b !in freed
    {
      OthersKeep(s, l, freed, m);
      LevelOkElsewhere(Without(s.heap, freed), s.levels[m], b0, contents);
      assert Without(s.heap, freed)[b0 := contents] == s'.heap;
    }
    assert LevelOk(s'.heap, lv);
    assert forall b :: Owns(lv, b) ==> b == b0 || Owns(s.levels[l], b);
    hide LevelOk, Owns;
    OwnersApart(s, s', l);
  }

  /** The frame that was on top is kept, without its arguments. */
  lemma PopLayout<X>(s: Layout<X>, s': Layout<X>)
    requires WellFormed(s) && s.top > 0 && s'.top == s.top - 1 && |s'.levels| == |s.levels| && s'.heap == s.heap
    requires forall l :: 0 <= l < |s.levels| && l != s.top ==> s'.levels[l] == s.levels[l]
    requires s'.levels[s.top] == s.levels[s.top].(args := [])
    ensures WellFormed(s') && LiveKept(s, s', s.top)
  {
    forall l | 0 <= l < |s.levels|
      ensures LevelOk(s'.heap, s'.levels[l]) && forall b :: Owns(s'.levels[l], b) <==> Owns(s.levels[l], b)
    {
      assert LevelOk(s.heap, s.levels[l]);
    }
  }

  /** A kept frame becomes live again, without arguments. */
  lemma ActivateLayout<X>(s: Layout<X>, s': Layout<X>)
    requires WellFormed(s) && s'.top == s.top + 1 && s'.top < |s.levels| && s'.heap == s.heap && s'.levels == s.levels
    ensures WellFormed(s') && LiveKept(s, s', s.top + 1)
  {
  }
}
