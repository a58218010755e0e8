/** The frames of wire memory: a call frame of aliased arguments (a vector of addresses or a list of slices) and a
    memory frame of own wires (a vector, or a pool of chunks with a map for the rest), and what each operation on
    them does to the layout. */
module WireFrames {
  import opened Options
  import opened WireEnvironment
  import opened WireLayout
  import opened WirePool

  const VEC_SIZE_INIT := 10
  const VEC_SIZE_CALLFRAME_THRESHOLD := 1000
  const VEC_SIZE_MEMFRAME_THRESHOLD := 10000
  const TICKS := 100

  datatype AbsoluteAddr =
    | PoolAllocated(block: nat, offset: nat)
    | Unallocated(level: nat, idx: nat)
    | VectorAllocated(block: nat, offset: nat)
  {
    function Addr(): Addr {
      if Unallocated? then Slot(level, idx) else Cell(block, offset)
    }

    /** `incr`: it makes no sense to move an unallocated address. */
    function Incr(i: nat): AbsoluteAddr
      requires Unallocated? ==> i == 0
    {
      match this
      case PoolAllocated(b, o) => PoolAllocated(b, o + i)
      case VectorAllocated(b, o) => VectorAllocated(b, o + i)
      case Unallocated(l, j) => Unallocated(l, j)
    }
  }

  const NULL := VectorAllocated(0, 0)

  datatype CallframeElm = PoolVec(first: nat, last: nat, block: nat, offset: nat) | UnallocatedElm(first: nat,
      level: nat, idx: nat)

  datatype Callframe = Callframe(outputs: seq<CallframeElm>, outputsCnt: nat, inputs: seq<CallframeElm>, inputsCnt: nat)

  const EMPTY_CALLFRAME := Callframe([], 0, [], 0)

  function Match(e: CallframeElm, id: nat): Option<AbsoluteAddr> {
    match e
    case PoolVec(first, last, block, offset) =>
      if first <= id <= last then Some(VectorAllocated(block, offset + (id - first))) else None
    case UnallocatedElm(first, level, idx) =>
      if first == id then Some(Unallocated(level, idx)) else None
  }

  /** `search_callframe`: the first element that covers the wire. */
  function Search(v: seq<CallframeElm>, id: nat): Option<AbsoluteAddr> {
    if v == [] then None
    else if Match(v[0], id).Some? then Match(v[0], id)
    else Search(v[1..], id)
  }

  function GetEither(c: Callframe, id: nat): Option<AbsoluteAddr> {
    if id < c.outputsCnt then Search(c.outputs, id)
    else if id < c.inputsCnt then Search(c.inputs, id)
    else None
  }

  datatype Frame<X> = Frame(
    callframe: Callframe, callframeSize: nat, callframeVector: seq<AbsoluteAddr>, callframeIsVector: bool,
    pool: Pool<X>, unallocated: map<nat, X>, vector: Vec, memIsVector: bool, counter: nat)

  /** Where argument `id` of a frame lives. */
  function ArgAddr<X>(f: Frame<X>, id: nat): Option<AbsoluteAddr> {
    if f.callframeIsVector then
      if id < |f.callframeVector| then Some(f.callframeVector[id]) else None
    else GetEither(f.callframe, id)
  }

  /** The lists cover exactly the arguments passed so far. */
  ghost predicate Covers(v: seq<CallframeElm>, low: nat, high: nat) {
    && (forall id: nat :: low <= id < high ==> Search(v, id).Some?)
    && (forall id: nat :: id >= high ==> Search(v, id).None?)
  }

  ghost predicate CallframeOk<X>(f: Frame<X>) {
    if f.callframeIsVector then f.callframeSize <= |f.callframeVector|
    else
      && f.callframe.outputsCnt <= f.callframe.inputsCnt == f.callframeSize
      && Covers(f.callframe.outputs, 0, f.callframe.outputsCnt)
      && Covers(f.callframe.inputs, f.callframe.outputsCnt, f.callframe.inputsCnt)
      && (f.callframe.outputsCnt == f.callframe.inputsCnt ==> f.callframe.inputs == [])
  }

  lemma ArgsFound<X>(f: Frame<X>, id: nat)
    requires CallframeOk(f) && id < f.callframeSize
    ensures ArgAddr(f, id).Some?
  {
  }

  ghost function FrameArgs<X>(f: Frame<X>): (args: seq<Addr>)
    requires CallframeOk(f)
    ensures |args| == f.callframeSize
  {
    seq(f.callframeSize, i requires 0 <= i < f.callframeSize => (ArgsFound(f, i); ArgAddr(f, i).value.Addr()))
  }

  lemma {:induction false} SearchAppend(v: seq<CallframeElm>, e: CallframeElm, id: nat)
    ensures Search(v + [e], id) == if Search(v, id).Some? then Search(v, id) else Match(e, id)
  {
    if v == [] {
      assert (v + [e])[1..] == [];
    } else {
      SearchAppend(v[1..], e, id);
      assert (v + [e])[1..] == v[1..] + [e];
    }
  }

  lemma CoversAppend(v: seq<CallframeElm>, low: nat, high: nat, e: CallframeElm, count: nat)
    requires Covers(v, low, high) && low <= high && count > 0
    requires forall id: nat :: Match(e, id).Some? <==> high <= id < high + count
    ensures Covers(v + [e], low, high + count)
    ensures forall id: nat :: low <= id < high ==> Search(v + [e], id) == Search(v, id)
    ensures forall id: nat :: high <= id < high + count ==> Search(v + [e], id) == Match(e, id)
  {
    forall id: nat
      ensures Search(v + [e], id) == if Search(v, id).Some? then Search(v, id) else Match(e, id)
    {
      SearchAppend(v, e, id);
    }
  }

  // ---- the memory ----

  /** A frame as a level of the layout; the arguments of a frame that is not live do not matter. */
  ghost function LevelOf<X>(f: Frame<X>, chunks: map<nat, Vec>, live: bool): Level<X>
    requires live ==> CallframeOk(f)
  {
    Level(if live then FrameArgs(f) else [], chunks, f.unallocated, f.vector, f.memIsVector)
  }

  /** The program's state at one moment: frames, the chunks their pools hold, the current frame, the blocks. */
  datatype Snap<X> = Snap(stack: seq<Frame<X>>, chunks: seq<map<nat, Vec>>, top: nat, blocks: map<nat, seq<X>>)

  ghost predicate FramesOk<X>(n: Snap<X>) {
    && n.top < |n.stack| == |n.chunks|
    && forall l :: 0 <= l <= n.top ==> CallframeOk(n.stack[l])
  }

  ghost function LayoutOf<X>(n: Snap<X>): Layout<X>
    requires FramesOk(n)
  {
    Layout(seq(|n.stack|, l requires 0 <= l < |n.stack| => LevelOf(n.stack[l], n.chunks[l], l <= n.top)), n.top,
           n.blocks)
  }

  /** What ties a frame's argument list to the environment's frame. */
  ghost predicate FrameLinked<X>(f: Frame<X>, e: EnvFrame) {
    && (f.callframeIsVector ==> e.maxArgs.Some? && e.maxArgs.value < |f.callframeVector|)
    && (!f.callframeIsVector && !e.inputs ==> f.callframe.inputs == [])
  }

  /** The state refines the plain environment. */
  ghost predicate CoreOf<X>(n: Snap<X>, e: Env<X>) {
    && FramesOk(n) && |e.frames| == n.top + 1
    && (forall l :: 0 <= l <= n.top ==> FrameLinked(n.stack[l], e.frames[l]))
    && Refines(LayoutOf(n), e)
  }

  lemma LevelAt<X>(n: Snap<X>, l: nat)
    requires FramesOk(n) && l < |n.stack|
    ensures var s := LayoutOf(n);
            && s.top == n.top && s.heap == n.blocks && |s.levels| == |n.stack|
            && s.levels[l].args == (if l <= n.top then FrameArgs(n.stack[l]) else [])
            && s.levels[l].chunks == n.chunks[l] && s.levels[l].slots == n.stack[l].unallocated
            && s.levels[l].vector == n.stack[l].vector && s.levels[l].isVector == n.stack[l].memIsVector
  {
  }

  /** The arguments of a frame depend on its call frame only. */
  lemma SameCallframe<X>(f: Frame<X>, f': Frame<X>)
    requires f'.callframe == f.callframe && f'.callframeSize == f.callframeSize
    requires f'.callframeVector == f.callframeVector && f'.callframeIsVector == f.callframeIsVector
    ensures CallframeOk(f') <==> CallframeOk(f)
    ensures CallframeOk(f) ==> FrameArgs(f') == FrameArgs(f)
  {
    if CallframeOk(f) {
      forall i | 0 <= i < f.callframeSize ensures FrameArgs(f')[i] == FrameArgs(f)[i] {
        ArgsFound(f, i);
      }
    }
  }

  // ---- reading and writing ----

  /** a is the address of the wire t. */
  ghost predicate AtWire<X>(n: Snap<X>, t: Target, a: Addr) {
    && FramesOk(n)
    && var s := LayoutOf(n);
       t.level <= n.top && |s.levels[t.level].args| <= t.id && a == Loc(s.levels[t.level], t.level, t.id)
  }

  /** An argument is stored at the address of the wire it names; any other wire is the frame's own. */
  lemma AddressOf<X>(s: Layout<X>, e: Env<X>, id: nat)
    requires Refines(s, e)
    ensures s.top < |s.levels| && |s.levels[s.top].args| == |e.Top().args|
    ensures var t := e.Resolve(id);
            if id < |s.levels[s.top].args|
            then t.level <= s.top && |s.levels[t.level].args| <= t.id
                && s.levels[s.top].args[id] == Loc(s.levels[t.level], t.level, t.id)
            else t == Target(s.top, id)
  {
    assert LevelRefines(s, e, s.top) && ArgsRefine(s, e, s.top);
    hide WellFormed, Loc, Within, Holds;
    if id < |e.Top().args| {
      assert e.frames[s.top].args[id].level < s.top;
    }
  }

  /** The three places an own wire can be in. */
  lemma LocCases<X>(s: Layout<X>, e: Env<X>, t: Target)
    requires Refines(s, e) && t.level <= s.top && t.level < |s.levels| && |s.levels[t.level].args| <= t.id
    ensures var lv := s.levels[t.level];
            var a := Loc(lv, t.level, t.id);
            && (lv.isVector ==> a == Cell(lv.vector.block, t.id - |lv.args|))
            && (!lv.isVector ==> forall f :: Holding(lv.chunks, f, t.id) ==> a == Cell(lv.chunks[f].block, t.id - f))
            && (!lv.isVector && !(exists f :: Holding(lv.chunks, f, t.id)) ==> a == Slot(t.level, t.id))
  {
    var lv := s.levels[t.level];
    assert LevelOk(s.heap, lv);
    forall f: nat | !lv.isVector && Holding(lv.chunks, f, t.id)
      ensures Loc(lv, t.level, t.id) == Cell(lv.chunks[f].block, t.id - f)
    {
      LocIs(s.heap, lv, t.level, t.id, f);
    }
  }

  /** Where a wire of the current frame is to be found, in the terms in which the program looks for it. */
  lemma WireAddress<X>(n: Snap<X>, e: Env<X>, id: nat)
    requires CoreOf(n, e) && Within(e, e.Resolve(id))
    ensures n.top < |n.stack| == |n.chunks|
    ensures var t, f := e.Resolve(id), n.stack[n.top];
            if id < f.callframeSize then ArgAddr(f, id).Some? && AtWire(n, t, ArgAddr(f, id).value.Addr())
            else if f.memIsVector then AtWire(n, t, Cell(f.vector.block, id - f.callframeSize))
            else
              && (forall c :: Holding(n.chunks[n.top], c, id) ==> AtWire(n, t, Cell(n.chunks[n.top][c].block, id - c)))
              && (!(exists c :: Holding(n.chunks[n.top], c, id)) ==> AtWire(n, t, Slot(n.top, id)))
  {
    var s, t, f := LayoutOf(n), e.Resolve(id), n.stack[n.top];
    LocIsValid(s, e, t);
    AddressOf(s, e, id);
    LocCases(s, e, t);
    LevelAt(n, n.top);
    hide Refines, Loc, LayoutOf, LocValid, EnvValid, Within, CoreOf;
    if id < f.callframeSize {
      ArgsFound(f, id);
      assert s.levels[n.top].args[id] == ArgAddr(f, id).value.Addr();
    }
  }

  lemma StoredAt<X>(n: Snap<X>, e: Env<X>, t: Target, a: Addr)
    requires CoreOf(n, e) && t in e.store && AtWire(n, t, a)
    ensures match a
            case Cell(b, o) => b in n.blocks && o < |n.blocks[b]| && n.blocks[b][o] == e.store[t]
            case Slot(l, id) =>
              l < |n.stack| && id in n.stack[l].unallocated && n.stack[l].unallocated[id] == e.store[t]
  {
    hide Refines, Loc;
    GetRefines(LayoutOf(n), e, t);
  }

  ghost predicate Writable<X>(n: Snap<X>, a: Addr) {
    match a
    case Cell(b, o) => b in n.blocks && o < |n.blocks[b]|
    case Slot(l, id) => l < |n.stack|
  }

  function Write<X>(n: Snap<X>, a: Addr, x: X): Snap<X>
    requires Writable(n, a)
  {
    match a
    case Cell(b, o) => n.(blocks := n.blocks[b := n.blocks[b][o := x]])
    case Slot(l, id) => n.(stack := n.stack[l := n.stack[l].(unallocated := n.stack[l].unallocated[id := x])])
  }

  lemma WriteLayout<X>(n: Snap<X>, a: Addr, x: X)
    requires FramesOk(n) && Writable(n, a)
    ensures |LayoutOf(n).levels| == |n.stack| && LayoutOf(n).heap == n.blocks
    ensures FramesOk(Write(n, a, x)) && LayoutOf(Write(n, a, x)) == StWrite(LayoutOf(n), a, x)
  {
    var n' := Write(n, a, x);
    if a.Slot? {
      SameCallframe(n.stack[a.level], n'.stack[a.level]);
      hide CallframeOk;
      assert LayoutOf(n').levels == StWrite(LayoutOf(n), a, x).levels;
    }
  }

  /** Writing at the address of a wire sets that wire in the environment. */
  lemma WriteCore<X>(n: Snap<X>, e: Env<X>, t: Target, a: Addr, x: X)
    requires CoreOf(n, e) && AtWire(n, t, a) && Within(e, t)
    ensures Writable(n, a) && CoreOf(Write(n, a, x), e.(store := e.store[t := x]))
  {
    hide Refines, Loc, LayoutOf, StWrite, CallframeOk;
    SetRefines(LayoutOf(n), e, t, x);
    assert Writable(n, a) by {
      LevelAt(n, t.level);
    }
    WriteLayout(n, a, x);
  }

  // ---- entering and leaving frames ----

  /** Only the popped frame's level changes: it loses its arguments. */
  lemma PopCore<X>(n: Snap<X>, e: Env<X>, stack': seq<Frame<X>>)
    requires CoreOf(n, e) && n.top > 0 && |stack'| == |n.stack|
    requires forall l :: 0 <= l < |n.stack| && l != n.top ==> stack'[l] == n.stack[l]
    requires stack'[n.top].pool == n.stack[n.top].pool && stack'[n.top].unallocated == n.stack[n.top].unallocated
    requires stack'[n.top].vector == n.stack[n.top].vector && stack'[n.top].memIsVector == n.stack[n.top].memIsVector
    ensures CoreOf(n.(stack := stack', top := n.top - 1), EnvPop(e))
  {
    hide CallframeOk, Refines;
    var n' := n.(stack := stack', top := n.top - 1);
    RefinesWellFormed(LayoutOf(n), e);
    PopLayout(LayoutOf(n), LayoutOf(n'));
    PopRefines(LayoutOf(n), LayoutOf(n'), e);
  }

  /** What `pop_frame` does to the frame it leaves: an oversized call frame is dropped. */
  function Trimmed<X>(f: Frame<X>): (f': Frame<X>)
    ensures f'.pool == f.pool
  {
    var f' := if |f.callframeVector| >= VEC_SIZE_CALLFRAME_THRESHOLD / 5
              then f.(callframeVector := seq(VEC_SIZE_INIT, i => NULL), callframeSize := 0) else f;
    if |f.callframe.outputs| + |f.callframe.inputs| >= VEC_SIZE_CALLFRAME_THRESHOLD / 5
    then f'.(callframe := EMPTY_CALLFRAME, callframeSize := 0) else f'
  }

  lemma PopTrimmed<X>(n: Snap<X>, e: Env<X>)
    requires CoreOf(n, e) && n.top > 0
    ensures CoreOf(n.(stack := n.stack[n.top := Trimmed(n.stack[n.top])], top := n.top - 1), EnvPop(e))
  {
    EnvHasFrames(n, e);
    PopCore(n, e, n.stack[n.top := Trimmed(n.stack[n.top])]);
  }

  lemma RefinesWellFormed<X>(s: Layout<X>, e: Env<X>)
    requires Refines(s, e)
    ensures WellFormed(s) && |e.frames| == s.top + 1
  {
  }

  /** Changes to a frame that is kept for reuse: only its buffers matter, and they stay its own. */
  lemma DeadCore<X>(n: Snap<X>, e: Env<X>, n': Snap<X>)
    requires CoreOf(n, e) && n'.top == n.top && |n.stack| <= |n'.stack| == |n'.chunks|
    requires forall l :: 0 <= l <= n.top ==> n'.stack[l] == n.stack[l] && n'.chunks[l] == n.chunks[l]
    requires FramesOk(n') && WellFormed(LayoutOf(n')) && LiveKept(LayoutOf(n), LayoutOf(n'), n.top + 1)
    ensures CoreOf(n', e)
  {
    hide CallframeOk, Refines, LayoutOf;
    LevelAt(n, n.top);
    LevelAt(n', n.top);
    DeadRefines(LayoutOf(n), LayoutOf(n'), e);
  }

  lemma GrowCore<X>(n: Snap<X>, e: Env<X>, f: Frame<X>, contents: seq<X>)
    requires CoreOf(n, e) && f.vector.block !in n.blocks && |contents| == f.vector.len
    ensures CoreOf(Snap(n.stack + [f], n.chunks + [map[]], n.top, n.blocks[f.vector.block := contents]), e)
  {
    hide CallframeOk, Refines;
    var n' := Snap(n.stack + [f], n.chunks + [map[]], n.top, n.blocks[f.vector.block := contents]);
    RefinesWellFormed(LayoutOf(n), e);
    var lv := Level([], map[], f.unallocated, f.vector, f.memIsVector);
    assert LayoutOf(n').levels == LayoutOf(n).levels + [lv];
    AppendLevel(LayoutOf(n), lv, contents);
    DeadCore(n, e, n');
  }

  lemma ChangeCore<X>(n: Snap<X>, e: Env<X>, l: nat, f: Frame<X>)
    requires CoreOf(n, e) && n.top < l < |n.stack| && f.vector == n.stack[l].vector
    ensures CoreOf(n.(stack := n.stack[l := f]), e)
  {
    hide CallframeOk, Refines;
    var n' := n.(stack := n.stack[l := f]);
    var s, s' := LayoutOf(n), LayoutOf(n');
    RefinesWellFormed(s, e);
    forall m | 0 <= m < |s.levels|
      ensures LevelOk(s'.heap, s'.levels[m]) && forall b :: Owns(s'.levels[m], b) <==> Owns(s.levels[m], b)
    {
      assert LevelOk(s.heap, s.levels[m]);
    }
    DeadCore(n, e, n');
  }

  lemma ClearCore<X>(n: Snap<X>, e: Env<X>, l: nat, f: Frame<X>)
    requires CoreOf(n, e) && n.top < l < |n.stack| && f.vector == n.stack[l].vector
    ensures CoreOf(Snap(n.stack[l := f], n.chunks[l := map[]], n.top, Without(n.blocks, ChunkBlocks(n.chunks[l]))), e)
  {
    hide CallframeOk, Refines, LevelOk, Owns;
    var n' := Snap(n.stack[l := f], n.chunks[l := map[]], n.top, Without(n.blocks, ChunkBlocks(n.chunks[l])));
    RefinesWellFormed(LayoutOf(n), e);
    var lv := Level([], map[], f.unallocated, f.vector, f.memIsVector);
    assert LayoutOf(n').levels == LayoutOf(n).levels[l := lv];
    ClearChunksOk(LayoutOf(n), l, lv);
    DeadCore(n, e, n');
  }

  lemma VectorCore<X>(n: Snap<X>, e: Env<X>, l: nat, f: Frame<X>, contents: seq<X>)
    requires CoreOf(n, e) && n.top < l < |n.stack| && f.vector.block !in n.blocks && |contents| == f.vector.len
    ensures CoreOf(Snap(n.stack[l := f], n.chunks, n.top,
                        Without(n.blocks[f.vector.block := contents], {n.stack[l].vector.block})), e)
  {
    hide CallframeOk, Refines, LevelOk, Owns;
    var n' := Snap(n.stack[l := f], n.chunks, n.top,
                   Without(n.blocks[f.vector.block := contents], {n.stack[l].vector.block}));
    RefinesWellFormed(LayoutOf(n), e);
    var lv := Level([], n.chunks[l], f.unallocated, f.vector, f.memIsVector);
    assert LayoutOf(n').levels == LayoutOf(n).levels[l := lv];
    NewVectorOk(LayoutOf(n), l, lv, contents);
    DeadCore(n, e, n');
  }

  /** A frame that is ready to become the current one. */
  ghost predicate Prepared<X>(f: Frame<X>, chunks: map<nat, Vec>, maxArgs: Option<nat>, limit: Option<nat>) {
    && f.callframeSize == 0
    && (if f.callframeIsVector then maxArgs.Some? && maxArgs.value < |f.callframeVector|
        else f.callframe == EMPTY_CALLFRAME)
    && (if f.memIsVector then limit.Some? && limit.value < f.vector.len else chunks == map[])
  }

  lemma PushCore<X>(n: Snap<X>, e: Env<X>, maxArgs: Option<nat>, limit: Option<nat>)
    requires CoreOf(n, e) && n.top + 1 < |n.stack| && Prepared(n.stack[n.top + 1], n.chunks[n.top + 1], maxArgs, limit)
    ensures CoreOf(n.(top := n.top + 1), EnvPush(e, maxArgs, limit))
  {
    hide Refines;
    var n' := n.(top := n.top + 1);
    assert CallframeOk(n'.stack[n'.top]);
    assert FrameArgs(n'.stack[n'.top]) == [];
    hide CallframeOk, FrameArgs;
    var s, s' := LayoutOf(n), LayoutOf(n');
    RefinesWellFormed(s, e);
    assert s'.levels == s.levels;
    ActivateLayout(s, s');
    PushRefines(s, s', e, maxArgs, limit);
  }

  // ---- allocating and freeing ranges ----

  function Added(chunks: map<nat, Vec>, first: nat, v: Vec): map<nat, Vec> {
    chunks[first := v]
  }

  function WithChunk<X>(n: Snap<X>, l: nat, first: nat, v: Vec, contents: seq<X>): Snap<X>
    requires l < |n.chunks|
  {
    n.(chunks := n.chunks[l := Added(n.chunks[l], first, v)], blocks := n.blocks[v.block := contents])
  }

  lemma InsertCore<X>(n: Snap<X>, e: Env<X>, l: nat, first: nat, v: Vec, contents: seq<X>)
    requires CoreOf(n, e) && l <= n.top && !n.stack[l].memIsVector && Fresh(e, l, first, v.len)
    requires v.block !in n.blocks && v.len > 0 && |contents| == v.len
    ensures CoreOf(WithChunk(n, l, first, v, contents), AddRange(e, l, first, v.len))
  {
    hide CallframeOk, Refines, Fresh, FrameArgs;
    var s := LayoutOf(n);
    RefinesWellFormed(s, e);
    LevelAt(n, l);
    AddChunkRefines(s, e, l, first, v, contents);
    var n' := WithChunk(n, l, first, v, contents);
    assert LayoutOf(n').levels == AddChunk(s, l, first, v, contents).levels;
  }

  /** A fresh range has room in the pool. */
  lemma InsertRoom<X>(n: Snap<X>, e: Env<X>, l: nat, first: nat, count: nat)
    requires CoreOf(n, e) && l <= n.top && !n.stack[l].memIsVector && count > 0 && Fresh(e, l, first, count)
    ensures l < |n.stack| == |n.chunks| && first !in n.chunks[l]
    ensures forall f :: f in n.chunks[l] ==> f + n.chunks[l][f].len <= first || first + count <= f
  {
    var s := LayoutOf(n);
    LevelAt(n, l);
    assert LevelRefines(s, e, l);
    assert EnvValid(e);
    hide Refines, FramesOk, LayoutOf;
    RangesStayDisjoint(e.frames[l].chunks, |e.frames[l].args|, first, count);
  }

  lemma RangeCore<X>(n: Snap<X>, e: Env<X>, l: nat, first: nat, count: nat)
    requires CoreOf(n, e) && l <= n.top && n.stack[l].memIsVector && count > 0 && Fresh(e, l, first, count)
    ensures CoreOf(n, AddRange(e, l, first, count))
  {
    LevelAt(n, l);
    hide CallframeOk, Refines, Fresh, LayoutOf;
    AddRangeRefines(LayoutOf(n), e, l, first, count);
  }

  function WithoutChunk<X>(n: Snap<X>, first: nat): Snap<X>
    requires n.top < |n.chunks| && first in n.chunks[n.top]
  {
    var cs := n.chunks[n.top];
    n.(chunks := n.chunks[n.top := Dropped(cs, first)], blocks := Without(n.blocks, {cs[first].block}))
  }

  lemma RemoveCore<X>(n: Snap<X>, e: Env<X>, first: nat)
    requires CoreOf(n, e) && !n.stack[n.top].memIsVector && e.frames != [] && first in e.Top().chunks
    ensures n.top < |n.stack| == |n.chunks| && first in n.chunks[n.top]
    ensures n.chunks[n.top][first].len == e.Top().chunks[first]
    ensures CoreOf(WithoutChunk(n, first), EnvDelete(e, first, e.Top().chunks[first]))
  {
    hide CallframeOk, Refines, FrameArgs;
    var s := LayoutOf(n);
    LevelAt(n, n.top);
    RemoveChunkRefines(s, e, first);
    var n' := WithoutChunk(n, first);
    assert LayoutOf(n').levels == RemoveChunk(s, first).levels;
    assert n'.blocks == RemoveChunk(s, first).heap;
  }

  lemma ForgetCore<X>(n: Snap<X>, e: Env<X>, first: nat, count: nat)
    requires CoreOf(n, e) && n.stack[n.top].memIsVector
    ensures e.frames != [] && CoreOf(n, EnvDelete(e, first, count))
  {
    LevelAt(n, n.top);
    hide CallframeOk, Refines, LayoutOf;
    DeleteInVector(LayoutOf(n), e, first, count);
  }

  // ---- passing slices ----

  /** The environment after the caller's side of passing a slice: a fresh range becomes an allocated one. */
  ghost function EnvSource<X>(e: Env<X>, src: nat, count: nat): Env<X>
    requires |e.frames| >= 2
  {
    var l := |e.frames| - 2;
    if src >= |e.frames[l].args| && count > 1 && !InOneChunk(e.frames[l].chunks, src, count)
    then AddRange(e, l, src, count) else e
  }

  lemma SliceSplits<X>(e: Env<X>, src: nat, count: nat, output: bool)
    requires |e.frames| >= 2
    ensures EnvSlice(e, src, count, output)
         == PushTargets(EnvSource(e, src, count), Targets(e, |e.frames| - 2, src, count), output)
  {
  }

  lemma CoreRefines<X>(n: Snap<X>, e: Env<X>)
    requires CoreOf(n, e)
    ensures FramesOk(n) && n.top < |n.stack| && Refines(LayoutOf(n), e) && |e.frames| == n.top + 1
  {
  }

  lemma AtWireIs<X>(n: Snap<X>, t: Target, a: Addr)
    requires AtWire(n, t, a)
    ensures FramesOk(n) && t.level <= n.top < |n.stack|
    ensures var s := LayoutOf(n);
            t.level < |s.levels| && |s.levels[t.level].args| <= t.id && a == Loc(s.levels[t.level], t.level, t.id)
  {
  }

  function Consecutive(t: Target, count: nat): (ts: seq<Target>)
    ensures |ts| == count && forall i :: 0 <= i < count ==> ts[i] == Target(t.level, t.id + i)
  {
    seq(count, i requires 0 <= i < count => Target(t.level, t.id + i))
  }

  /** In a pool frame, one chunk holds a whole range. */
  lemma ChunkOfRange<X>(s: Layout<X>, e: Env<X>, t: Target, count: nat)
    requires Refines(s, e) && t.level <= s.top && InOneChunk(e.frames[t.level].chunks, t.id, count)
    requires !s.levels[t.level].isVector
    ensures exists f: nat ::
      Holding(s.levels[t.level].chunks, f, t.id) && t.id + count <= f + s.levels[t.level].chunks[f].len
  {
    assert LevelRefines(s, e, t.level);
    var f: nat :| InRange(e.frames[t.level].chunks, f, t.id) && t.id + count <= f + e.frames[t.level].chunks[f];
    assert Holding(s.levels[t.level].chunks, f, t.id);
  }

  /** Consecutive wires of one allocation lie at consecutive addresses. */
  lemma Contiguous<X>(n: Snap<X>, e: Env<X>, t: Target, addr: AbsoluteAddr, count: nat, i: nat)
    requires CoreOf(n, e) && AtWire(n, t, addr.Addr()) && t.level < |e.frames| && 0 < i < count
    requires InOneChunk(e.frames[t.level].chunks, t.id, count)
    ensures !addr.Unallocated? && AtWire(n, Target(t.level, t.id + i), addr.Incr(i).Addr())
  {
    hide CoreOf, FramesOk, LayoutOf, Refines, Loc, CallframeOk, FrameArgs, InOneChunk;
    CoreRefines(n, e);
    var s := LayoutOf(n);
    LevelAt(n, t.level);
    AtWireIs(n, t, addr.Addr());
    LocCases(s, e, t);
    LocCases(s, e, Target(t.level, t.id + i));
    var lv := s.levels[t.level];
    if !lv.isVector {
      ChunkOfRange(s, e, t, count);
      var f: nat :| Holding(lv.chunks, f, t.id) && t.id + count <= f + lv.chunks[f].len;
      assert Holding(lv.chunks, f, t.id + i);
    }
  }

  /** Where an own wire of a live frame is to be found. */
  lemma OwnAddress<X>(n: Snap<X>, e: Env<X>, l: nat, id: nat)
    requires CoreOf(n, e) && l <= n.top && n.stack[l].callframeSize <= id
    ensures n.top < |n.stack| == |n.chunks| && |e.frames| == n.top + 1 && |e.frames[l].args| == n.stack[l].callframeSize
    ensures n.stack[l].memIsVector ==>
      AtWire(n, Target(l, id), Cell(n.stack[l].vector.block, id - n.stack[l].callframeSize))
    ensures !n.stack[l].memIsVector ==> forall c :: Holding(n.chunks[l], c, id) ==>
      AtWire(n, Target(l, id), Cell(n.chunks[l][c].block, id - c))
    ensures !n.stack[l].memIsVector && !(exists c :: Holding(n.chunks[l], c, id)) ==>
      AtWire(n, Target(l, id), Slot(l, id))
    ensures !n.stack[l].memIsVector ==> SameChunks(n.chunks[l], e.frames[l].chunks)
  {
    var s := LayoutOf(n);
    LevelAt(n, l);
    assert LevelRefines(s, e, l);
    hide Refines, LayoutOf, Loc;
    LocCases(s, e, Target(l, id));
  }

  lemma ArgAddress<X>(n: Snap<X>, e: Env<X>, l: nat, id: nat)
    requires CoreOf(n, e) && l <= n.top && id < n.stack[l].callframeSize
    ensures |e.frames| == n.top + 1 && |e.frames[l].args| == n.stack[l].callframeSize
    ensures ArgAddr(n.stack[l], id).Some? && AtWire(n, e.frames[l].args[id], ArgAddr(n.stack[l], id).value.Addr())
    ensures e.frames[l].args[id].level < l
  {
    var s := LayoutOf(n);
    LevelAt(n, l);
    assert LevelRefines(s, e, l) && ArgsRefine(s, e, l);
    assert e.frames[l].args[id].level < l;
    ArgsFound(n.stack[l], id);
    hide Refines, LayoutOf, Loc;
    assert s.levels[l].args[id] == ArgAddr(n.stack[l], id).value.Addr();
  }

  /** The slice is in place: wire by wire, the address computed from the first one. */
  ghost predicate SliceAt<X>(n: Snap<X>, ts: seq<Target>, addr: AbsoluteAddr) {
    && (addr.Unallocated? ==> |ts| <= 1)
    && forall i :: 0 <= i < |ts| ==> AtWire(n, ts[i], addr.Incr(i).Addr())
  }

  lemma SliceFromFirst<X>(n: Snap<X>, e: Env<X>, ts: seq<Target>, addr: AbsoluteAddr)
    requires CoreOf(n, e) && ts != [] && AtWire(n, ts[0], addr.Addr()) && ts[0].level < |e.frames|
    requires |ts| == 1 || InOneChunk(e.frames[ts[0].level].chunks, ts[0].id, |ts|)
    requires ts == Consecutive(ts[0], |ts|)
    ensures SliceAt(n, ts, addr)
  {
    hide CoreOf, AtWire, InOneChunk;
    forall i | 0 < i < |ts| ensures !addr.Unallocated? && AtWire(n, ts[i], addr.Incr(i).Addr()) {
      Contiguous(n, e, ts[0], addr, |ts|, i);
    }
    assert addr.Incr(0) == addr;
    if |ts| > 1 {
      Contiguous(n, e, ts[0], addr, |ts|, 1);
    }
  }

  /** What `allocate_slice` leaves in the callee's call frame. */
  ghost predicate Appended<X>(f: Frame<X>, f': Frame<X>, addr: AbsoluteAddr, count: nat, output: bool)
    requires addr.Unallocated? ==> count <= 1
  {
    && f'.pool == f.pool && f'.unallocated == f.unallocated && f'.vector == f.vector && f'.memIsVector == f.memIsVector
    && f'.callframeIsVector == f.callframeIsVector && |f'.callframeVector| == |f.callframeVector|
    && (output ==> f'.callframe.inputs == f.callframe.inputs)
    && CallframeOk(f) && CallframeOk(f')
    && FrameArgs(f') == FrameArgs(f) + seq(count, i requires 0 <= i < count => addr.Incr(i).Addr())
  }

  lemma AppendCore<X>(n: Snap<X>, e: Env<X>, f': Frame<X>, addr: AbsoluteAddr, ts: seq<Target>, output: bool)
    requires CoreOf(n, e) && e.frames != [] && e.Top().chunks == map[] && SliceAt(n, ts, addr) && ts != []
    requires forall t: Target :: t in e.store ==> t.level < |e.frames| - 1
    requires forall i :: 0 <= i < |ts| ==> ts[i].level < n.top && Within(e, ts[i])
    requires Appended(n.stack[n.top], f', addr, |ts|, output) && (output ==> !e.Top().inputs)
    ensures CoreOf(n.(stack := n.stack[n.top := f']), PushTargets(e, ts, output))
  {
    hide Refines, CallframeOk, FrameArgs, Loc, Within, Appended, LayoutOf;
    var s := LayoutOf(n);
    var addrs := seq(|ts|, i requires 0 <= i < |ts| => addr.Incr(i).Addr());
    AppendedLayout(n, f', addr, |ts|, output);
    forall i | 0 <= i < |ts|
      ensures |s.levels[ts[i].level].args| <= ts[i].id && addrs[i] == Loc(s.levels[ts[i].level], ts[i].level, ts[i].id)
    {
      assert AtWire(n, ts[i], addrs[i]);
    }
    PushArgsRefines(s, e, addrs, ts, output);
    AppendedLinked(n.stack[n.top], f', e, addr, ts, output);
  }

  lemma AppendedLayout<X>(n: Snap<X>, f': Frame<X>, addr: AbsoluteAddr, count: nat, output: bool)
    requires FramesOk(n) && (addr.Unallocated? ==> count <= 1) && Appended(n.stack[n.top], f', addr, count, output)
    ensures var n' := n.(stack := n.stack[n.top := f']);
            && |LayoutOf(n).levels| == |n.stack| && LayoutOf(n).top == n.top && FramesOk(n')
            && LayoutOf(n') == PushArgs(LayoutOf(n), seq(count, i requires 0 <= i < count => addr.Incr(i).Addr()))
  {
    hide CallframeOk, FrameArgs;
    var n' := n.(stack := n.stack[n.top := f']);
    assert LayoutOf(n').levels
        == PushArgs(LayoutOf(n), seq(count, i requires 0 <= i < count => addr.Incr(i).Addr())).levels;
  }

  lemma AppendedLinked<X>(f: Frame<X>, f': Frame<X>, e: Env<X>, addr: AbsoluteAddr, ts: seq<Target>, output: bool)
    requires (addr.Unallocated? ==> |ts| <= 1) && Appended(f, f', addr, |ts|, output) && e.frames != []
    requires FrameLinked(f, e.Top())
    ensures FrameLinked(f', PushTargets(e, ts, output).Top())
  {
  }

  // ---- the callee's side: appending to its call frame ----

  /** `mk_from_absadr`: an unallocated wire is passed on its own. */
  function MakeElm(first: nat, count: nat, addr: AbsoluteAddr): CallframeElm
    requires count > 0
  {
    match addr
    case PoolAllocated(b, o) => PoolVec(first, first + count - 1, b, o)
    case VectorAllocated(b, o) => PoolVec(first, first + count - 1, b, o)
    case Unallocated(l, j) => UnallocatedElm(first, l, j)
  }

  lemma ElmMatches(first: nat, count: nat, addr: AbsoluteAddr, id: nat)
    requires count > 0 && (addr.Unallocated? ==> count == 1)
    ensures Match(MakeElm(first, count, addr), id).Some? <==> first <= id < first + count
    ensures first <= id < first + count ==>
      Match(MakeElm(first, count, addr), id).value.Addr() == addr.Incr(id - first).Addr()
  {
  }

  /** Outputs are passed before inputs, each list growing at its end. */
  function AppendList(c: Callframe, elm: CallframeElm, count: nat, output: bool): Callframe {
    if output then Callframe(c.outputs + [elm], c.outputsCnt + count, c.inputs, c.inputsCnt + count)
    else Callframe(c.outputs, c.outputsCnt, c.inputs + [elm], c.inputsCnt + count)
  }

  lemma EmptyCovers(low: nat, high: nat)
    requires Covers([], low, high) && low <= high
    ensures low == high
  {
    assert low < high ==> Search([], low).Some?;
  }

  lemma AppendedList<X>(f: Frame<X>, addr: AbsoluteAddr, count: nat, output: bool)
    requires CallframeOk(f) && !f.callframeIsVector && count > 0 && (addr.Unallocated? ==> count == 1)
    requires output ==> f.callframe.inputs == []
    ensures var elm := MakeElm(f.callframeSize, count, addr);
            var f' := f.(callframeSize := f.callframeSize + count,
                         callframe := AppendList(f.callframe, elm, count, output));
            Appended(f, f', addr, count, output)
  {
    var elm, c := MakeElm(f.callframeSize, count, addr), f.callframe;
    var c' := AppendList(c, elm, count, output);
    var f' := f.(callframeSize := f.callframeSize + count, callframe := c');
    forall id: nat
      ensures Match(elm, id).Some? <==> f.callframeSize <= id < f.callframeSize + count
      ensures f.callframeSize <= id < f.callframeSize + count ==>
        Match(elm, id).value.Addr() == addr.Incr(id - f.callframeSize).Addr()
    {
      ElmMatches(f.callframeSize, count, addr, id);
    }
    if output {
      EmptyCovers(c.outputsCnt, c.inputsCnt);
      CoversAppend(c.outputs, 0, c.outputsCnt, elm, count);
    } else {
      CoversAppend(c.inputs, c.outputsCnt, c.inputsCnt, elm, count);
    }
    ListArgs(f, f', addr, count, output);
  }

  lemma ListArgs<X>(f: Frame<X>, f': Frame<X>, addr: AbsoluteAddr, count: nat, output: bool)
    requires CallframeOk(f) && CallframeOk(f') && !f.callframeIsVector && !f'.callframeIsVector
    requires (addr.Unallocated? ==> count == 1)
    requires f'.callframeSize == f.callframeSize + count
    requires forall id: nat :: id < f.callframeSize ==> GetEither(f'.callframe, id) == GetEither(f.callframe, id)
    requires forall id: nat :: f.callframeSize <= id < f'.callframeSize ==>
               && GetEither(f'.callframe, id).Some?
               && GetEither(f'.callframe, id).value.Addr() == addr.Incr(id - f.callframeSize).Addr()
    ensures FrameArgs(f') == FrameArgs(f) + seq(count, i requires 0 <= i < count => addr.Incr(i).Addr())
  {
    hide CallframeOk, GetEither;
    forall id | 0 <= id < f'.callframeSize
      ensures FrameArgs(f')[id] == (FrameArgs(f) + seq(count, i requires 0 <= i < count => addr.Incr(i).Addr()))[id]
    {
      ArgsFound(f', id);
    }
  }

  lemma AppendedVector<X>(f: Frame<X>, v: seq<AbsoluteAddr>, addr: AbsoluteAddr, count: nat, output: bool)
    requires CallframeOk(f) && f.callframeIsVector && (addr.Unallocated? ==> count == 1)
    requires f.callframeSize + count <= |v| == |f.callframeVector|
    requires v[..f.callframeSize] == f.callframeVector[..f.callframeSize]
    requires forall i :: 0 <= i < count ==> v[f.callframeSize + i] == addr.Incr(i)
    ensures Appended(f, f.(callframeSize := f.callframeSize + count, callframeVector := v), addr, count, output)
  {
    var f' := f.(callframeSize := f.callframeSize + count, callframeVector := v);
    forall id | 0 <= id < f'.callframeSize
      ensures FrameArgs(f')[id] == (FrameArgs(f) + seq(count, i requires 0 <= i < count => addr.Incr(i).Addr()))[id]
    {
      ArgsFound(f', id);
      if id < f.callframeSize {
        assert v[..f.callframeSize][id] == f.callframeVector[..f.callframeSize][id];
      } else {
        assert v[f.callframeSize + (id - f.callframeSize)] == addr.Incr(id - f.callframeSize);
      }
    }
  }

  // ---- the caller's side: finding the slice ----

  /** Allocating the range on the way changes no name and no value. */
  lemma SourceKeeps<X>(e: Env<X>, src: nat, count: nat)
    requires |e.frames| >= 2
    ensures var e', l := EnvSource(e, src, count), |e.frames| - 2;
            && |e'.frames| == |e.frames| && e'.store == e.store && e'.Top() == e.Top()
            && Targets(e', l, src, count) == Targets(e, l, src, count)
            && forall t :: Within(e', t) <==> Within(e, t)
  {
  }

  lemma OwnTargets<X>(e: Env<X>, l: nat, src: nat, count: nat)
    requires l < |e.frames| && |e.frames[l].args| <= src && count > 0
    ensures Targets(e, l, src, count) == Consecutive(Target(l, src), count)
    ensures Targets(e, l, src, count)[0] == Target(l, src)
  {
    assert Target(l, src + 0) == Target(l, src);
  }

  /** Case 1: the caller passes on one of its own arguments, or a slice of them. */
  lemma PassedOn<X>(n: Snap<X>, e: Env<X>, src: nat, count: nat, output: bool)
    requires CoreOf(n, e) && SliceAllowed(e, src, count, output) && src < |e.frames[|e.frames| - 2].args|
    ensures n.top >= 1 && |e.frames| == n.top + 1 && ArgAddr(n.stack[n.top - 1], src).Some?
    ensures src < n.stack[n.top - 1].callframeSize && EnvSource(e, src, count) == e
    ensures SliceAt(n, Targets(e, n.top - 1, src, count), ArgAddr(n.stack[n.top - 1], src).value)
  {
    hide CoreOf, AtWire, InOneChunk, Within, Consecutive;
    EnvHasFrames(n, e);
    FrameSizes(n, e, n.top);
    var l := n.top - 1;
    FrameSizes(n, e, l);
    ArgAddress(n, e, l, src);
    var ts := Targets(e, l, src, count);
    assert ts[0] == e.frames[l].args[src];
    if count > 1 {
      forall i | 0 <= i < count ensures ts[i] == Consecutive(ts[0], count)[i] {
      }
    }
    SliceFromFirst(n, e, ts, ArgAddr(n.stack[l], src).value);
  }

  lemma FrameSizes<X>(n: Snap<X>, e: Env<X>, l: nat)
    requires CoreOf(n, e) && l <= n.top
    ensures n.top < |n.stack| == |n.chunks| && |e.frames| == n.top + 1 && |e.frames[l].args| == n.stack[l].callframeSize
  {
    LevelAt(n, l);
    assert LevelRefines(LayoutOf(n), e, l);
    hide Refines, LayoutOf;
  }

  /** Case 2: the caller's wires are in a vector, one after the other. */
  lemma InVector<X>(n: Snap<X>, e: Env<X>, l: nat, src: nat, count: nat)
    requires CoreOf(n, e) && l <= n.top < |n.stack| && n.stack[l].memIsVector && n.stack[l].callframeSize <= src
    requires count > 0 && l < |e.frames|
    ensures SliceAt(n, Targets(e, l, src, count),
                    VectorAllocated(n.stack[l].vector.block, src - n.stack[l].callframeSize))
  {
    hide AtWire, CoreOf;
    FrameSizes(n, e, l);
    var ts, addr := Targets(e, l, src, count), VectorAllocated(n.stack[l].vector.block, src - n.stack[l].callframeSize);
    forall i | 0 <= i < count ensures AtWire(n, ts[i], addr.Incr(i).Addr()) {
      OwnAddress(n, e, l, src + i);
    }
  }

  /** Case 3: they are in one chunk of the caller's pool. */
  lemma InPool<X>(n: Snap<X>, e: Env<X>, l: nat, src: nat, count: nat, block: nat, offset: nat)
    requires CoreOf(n, e) && l <= n.top < |n.stack| == |n.chunks| && !n.stack[l].memIsVector
    requires n.stack[l].callframeSize <= src && count > 0 && l < |e.frames|
    requires count == 1 || InOneChunk(e.frames[l].chunks, src, count)
    requires exists f :: Holding(n.chunks[l], f, src)
    requires forall f :: Holding(n.chunks[l], f, src) ==> block == n.chunks[l][f].block && offset == src - f
    ensures SliceAt(n, Targets(e, l, src, count), PoolAllocated(block, offset))
  {
    hide AtWire, CoreOf, InOneChunk;
    FrameSizes(n, e, l);
    OwnAddress(n, e, l, src);
    OwnTargets(e, l, src, count);
    SliceFromFirst(n, e, Targets(e, l, src, count), PoolAllocated(block, offset));
  }

  /** Case 4: one wire that no allocation holds. */
  lemma InSlot<X>(n: Snap<X>, e: Env<X>, l: nat, src: nat)
    requires CoreOf(n, e) && l <= n.top < |n.stack| == |n.chunks| && !n.stack[l].memIsVector
    requires n.stack[l].callframeSize <= src && l < |e.frames|
    requires !exists f :: Holding(n.chunks[l], f, src)
    ensures SliceAt(n, Targets(e, l, src, 1), Unallocated(l, src))
  {
    hide AtWire, CoreOf, InOneChunk;
    FrameSizes(n, e, l);
    OwnAddress(n, e, l, src);
    OwnTargets(e, l, src, 1);
    SliceFromFirst(n, e, Targets(e, l, src, 1), Unallocated(l, src));
  }

  /** In a pool frame, the pool holds a wire exactly when a range of the environment does. */
  lemma SameRanges<X>(n: Snap<X>, e: Env<X>, l: nat, id: nat, count: nat)
    requires CoreOf(n, e) && l <= n.top && !n.stack[l].memIsVector && n.stack[l].callframeSize <= id && count > 0
    ensures n.top < |n.stack| == |n.chunks| && |e.frames| == n.top + 1
    ensures InOneChunk(e.frames[l].chunks, id, count) ==> exists f :: Holding(n.chunks[l], f, id)
    ensures Fresh(e, l, id, count) ==>
      !(exists f :: Holding(n.chunks[l], f, id)) && !InOneChunk(e.frames[l].chunks, id, count)
  {
    OwnAddress(n, e, l, id);
    hide AtWire, CoreOf;
    if InOneChunk(e.frames[l].chunks, id, count) {
      var f: nat :| InRange(e.frames[l].chunks, f, id) && id + count <= f + e.frames[l].chunks[f];
      assert Holding(n.chunks[l], f, id);
    }
    if f: nat :| Holding(n.chunks[l], f, id) {
      assert InRange(e.frames[l].chunks, f, id);
    }
  }

  lemma NowInOneChunk<X>(e: Env<X>, l: nat, src: nat, count: nat)
    requires l < |e.frames| && count > 0
    ensures InOneChunk(AddRange(e, l, src, count).frames[l].chunks, src, count)
  {
    assert InRange(AddRange(e, l, src, count).frames[l].chunks, src, src);
  }

  /** Every wire passed is an own wire of an earlier frame than the callee's. */
  lemma SliceTargets<X>(n: Snap<X>, e: Env<X>, src: nat, count: nat, output: bool)
    requires CoreOf(n, e) && SliceAllowed(e, src, count, output)
    ensures var ts := Targets(e, |e.frames| - 2, src, count);
            forall i :: 0 <= i < count ==> ts[i].level < n.top && Within(e, ts[i])
  {
    hide CoreOf, Within;
    EnvIsValid(n, e);
    EnvHasFrames(n, e);
    var ts := Targets(e, |e.frames| - 2, src, count);
    forall i | 0 <= i < count ensures ts[i].level < n.top {
      TargetsAreCallers(e, |e.frames| - 2, src, count, i);
    }
  }

  lemma EnvIsValid<X>(n: Snap<X>, e: Env<X>)
    requires CoreOf(n, e)
    ensures EnvValid(e)
  {
  }

  /** What the current frame keeps between two slices. */
  lemma TopFrame<X>(n: Snap<X>, e: Env<X>)
    requires CoreOf(n, e) && e.frames != []
    ensures n.top < |n.stack| && CallframeOk(n.stack[n.top]) && FrameLinked(n.stack[n.top], e.Top())
  {
  }

  lemma SliceSingle<X>(n: Snap<X>, ts: seq<Target>, addr: AbsoluteAddr)
    requires SliceAt(n, ts, addr) && ts != []
    ensures addr.Unallocated? ==> |ts| == 1
  {
  }

  lemma AppendedPool<X>(f: Frame<X>, f': Frame<X>, addr: AbsoluteAddr, count: nat, output: bool)
    requires (addr.Unallocated? ==> count <= 1) && Appended(f, f', addr, count, output)
    ensures f'.pool == f.pool
  {
  }

  lemma InitialRefines<X>(s: Layout<X>)
    requires |s.levels| == 1 && s.top == 0 && Allocated(s.heap, s.levels[0].vector)
    requires s.levels[0].args == [] && s.levels[0].chunks == map[] && !s.levels[0].isVector
    ensures Refines(s, Initial<X>())
  {
    FreshLevelOk(s.heap, s.levels[0]);
    assert LevelRefines(s, Initial<X>(), 0) && ArgsRefine(s, Initial<X>(), 0);
  }

  lemma TiledStep<X>(e: Env<X>, first: nat, count: nat)
    requires e.frames != [] && Tiled(e.Top().chunks, first, count)
    ensures first in e.Top().chunks && 0 < e.Top().chunks[first] <= count
  {
  }

  lemma VectorLive<X>(n: Snap<X>, e: Env<X>, l: nat)
    requires CoreOf(n, e) && l < |n.stack|
    ensures Allocated(n.blocks, n.stack[l].vector)
  {
    RefinesWellFormed(LayoutOf(n), e);
    LevelAt(n, l);
    hide Refines, LayoutOf;
    assert LevelOk(LayoutOf(n).heap, LayoutOf(n).levels[l]);
  }

  lemma StoreIsWithin<X>(n: Snap<X>, e: Env<X>, t: Target)
    requires CoreOf(n, e) && t in e.store
    ensures e.frames != [] && Within(e, t)
  {
    StoreWithin(e, t);
  }

  lemma EnvHasFrames<X>(n: Snap<X>, e: Env<X>)
    requires CoreOf(n, e)
    ensures |e.frames| == n.top + 1 && n.top < |n.stack| == |n.chunks|
  {
  }
}
