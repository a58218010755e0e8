/** The stack of frames, refining the plain environment. */
module WireMemory {
  import opened Options
  import opened WireEnvironment
  import opened WireLayout
  import opened WirePool
  import opened WireFrames

  class Memory<X> {
    const heap: Heap<X>
    const default: X
    var stack: seq<Frame<X>>
    var top: nat
    ghost var chunks: seq<map<nat, Vec>>   // what the pools of the frames hold
    ghost var pools: set<Pool<X>>
    ghost var env: Env<X>

    ghost predicate PoolsOk()
      reads `stack, `chunks, `pools, pools
    {
      && |chunks| == |stack|
      && (forall l :: 0 <= l < |stack| ==>
           stack[l].pool in pools && stack[l].pool.Valid() && stack[l].pool.chunks == chunks[l])
      && (forall l, m :: 0 <= l < m < |stack| ==> stack[l].pool != stack[m].pool)
    }

    ghost function Now(): Snap<X>
      reads `stack, `chunks, `top, heap
    {
      Snap(stack, chunks, top, heap.blocks)
    }

    /** The state refines the plain environment `env`, and every pool is coherent. */
    ghost predicate Valid()
      reads `stack, `chunks, `top, `env, `pools, heap, pools
    {
      heap.Valid() && CoreOf(Now(), env) && PoolsOk()
    }

    constructor (default: X)
      ensures Valid() && env == Initial() && fresh(heap) && fresh(pools)
    {
      var h := new Heap<X>();
      var v := h.Alloc(seq(VEC_SIZE_INIT, i => default));
      var pool := new Pool<X>();
      this.default, heap, top, env, chunks, pools := default, h, 0, Initial(), [map[]], {pool};
      stack := [Frame(EMPTY_CALLFRAME, 0, [], false, pool, map[], v, false, 0)];
      new;
      InitialRefines(LayoutOf(Now()));
    }

    /** Looks a wire up in a frame's pool; only the cache changes. */
    method FindInPool(l: nat, id: nat) returns (here: bool, block: nat, offset: nat)
      requires PoolsOk() && l < |stack|
      modifies pools
      ensures PoolsOk()
      ensures here <==> exists f :: Holding(chunks[l], f, id)
      ensures here ==> forall f :: Holding(chunks[l], f, id) ==> block == chunks[l][f].block && offset == id - f
    {
      var pool := stack[l].pool;
      block, offset := 0, 0;
      here := pool.Present(id);
      if here {
        block, offset := pool.GetPtr(id);
      }
    }

    /** The branches that `get` and `set` share: an argument, a vector wire, a pool wire or an unallocated one. */
    method Locate(id: nat) returns (addr: AbsoluteAddr)
      requires PoolsOk() && CoreOf(Now(), env) && env.frames != [] && Within(env, env.Resolve(id))
      modifies pools
      ensures PoolsOk() && AtWire(Now(), env.Resolve(id), addr.Addr())
    {
      hide CoreOf, AtWire, Within, Holding, GetEither, PoolsOk;
      EnvHasFrames(Now(), env);
      WireAddress(Now(), env, id);
      var f := stack[top];
      if id < f.callframeSize {
        addr := ArgAddr(f, id).value;
      } else if f.memIsVector {
        addr := VectorAllocated(f.vector.block, id - f.callframeSize);
      } else {
        var here, block, offset := FindInPool(top, id);
        addr := if here then PoolAllocated(block, offset) else Unallocated(top, id);
      }
    }

    method ReadAddr(ghost t: Target, addr: AbsoluteAddr) returns (x: X)
      requires CoreOf(Now(), env) && t in env.store && AtWire(Now(), t, addr.Addr())
      ensures x == env.store[t]
    {
      StoredAt(Now(), env, t, addr.Addr());
      hide CoreOf, AtWire;
      match addr
      case PoolAllocated(b, o) => x := heap.Read(b, o);
      case VectorAllocated(b, o) => x := heap.Read(b, o);
      case Unallocated(l, idx) => x := stack[l].unallocated[idx];
    }

    /** The value of a wire of the current frame, read through whatever alias: the last value written to it. */
    method Get(id: nat) returns (x: X)
      requires Valid() && env.frames != [] && env.Resolve(id) in env.store
      modifies pools
      ensures Valid() && x == env.store[env.Resolve(id)]
    {
      hide CoreOf, PoolsOk, AtWire, Within;
      ghost var t := env.Resolve(id);
      StoreIsWithin(Now(), env, t);
      var addr := Locate(id);
      x := ReadAddr(t, addr);
    }

    /** Replaces what a frame holds, but not its pool. */
    method SetFrame(l: nat, f: Frame<X>)
      requires PoolsOk() && l < |stack| && f.pool == stack[l].pool
      modifies this`stack
      ensures PoolsOk() && stack == old(stack)[l := f]
    {
      stack := stack[l := f];
    }

    method WriteAddr(addr: AbsoluteAddr, x: X)
      requires heap.Valid() && PoolsOk() && Writable(Now(), addr.Addr())
      modifies this`stack, heap
      ensures heap.Valid() && PoolsOk() && Now() == Write(old(Now()), addr.Addr(), x)
    {
      hide PoolsOk;
      match addr
      case PoolAllocated(b, o) => heap.Write(b, o, x);
      case VectorAllocated(b, o) => heap.Write(b, o, x);
      case Unallocated(l, idx) => SetFrame(l, stack[l].(unallocated := stack[l].unallocated[idx := x]));
    }

    /** Sets a wire of the current frame, whatever it is an alias of. */
    method Set(id: nat, x: X)
      requires Valid() && env.frames != [] && Within(env, env.Resolve(id))
      modifies this`stack, this`env, heap, pools
      ensures Valid() && env == EnvSet(old(env), id, x)
    {
      hide CoreOf, PoolsOk, AtWire, Within, Writable, Write;
      ghost var t := env.Resolve(id);
      ghost var e' := EnvSet(env, id, x);
      var addr := Locate(id);
      WriteCore(Now(), env, t, addr.Addr(), x);
      WriteAddr(addr, x);
      env := e';
    }

    // ---- entering a frame ----

    method GrowStack()
      requires Valid()
      modifies this`stack, this`chunks, this`pools, heap
      ensures Valid() && fresh(pools - old(pools)) && |stack| == |old(stack)| + 1
      ensures var f := stack[|stack| - 1];
              && f.callframeSize == 0 && f.callframe == EMPTY_CALLFRAME && chunks == old(chunks) + [map[]]
              && f.counter == 0
    {
      hide CoreOf;
      ghost var n := Now();
      var contents := seq(VEC_SIZE_INIT, i => default);
      var v := heap.Alloc(contents);
      var pool := new Pool<X>();
      var f := Frame(EMPTY_CALLFRAME, 0, [], false, pool, map[], v, false, 0);
      GrowCore(n, env, f, contents);
      stack, chunks, pools := stack + [f], chunks + [map[]], pools + {pool};
    }

    /** Changes a kept frame, but not its buffers. */
    method ChangeFrame(l: nat, f: Frame<X>)
      requires Valid() && top < l < |stack| && f.pool == stack[l].pool && f.vector == stack[l].vector
      modifies this`stack
      ensures Valid() && stack == old(stack)[l := f]
    {
      hide CoreOf, PoolsOk;
      EnvHasFrames(Now(), env);
      ChangeCore(Now(), env, l, f);
      SetFrame(l, f);
    }

    /** Empties the pool of a kept frame. */
    method ClearPool(l: nat)
      requires Valid() && top < l < |stack|
      modifies this`chunks, heap, pools
      ensures Valid() && chunks == old(chunks)[l := map[]]
    {
      hide CoreOf;
      var pool := stack[l].pool;
      ClearCore(Now(), env, l, stack[l]);
      assert stack[l := stack[l]] == stack;
      heap.Free(ChunkBlocks(pool.chunks));
      pool.Clear();
      chunks := chunks[l := map[]];
    }

    /** Gives a kept frame a new, empty pool. */
    method RenewPool(l: nat)
      requires Valid() && top < l < |stack|
      modifies this`stack, this`chunks, this`pools, heap
      ensures Valid() && chunks == old(chunks)[l := map[]] && fresh(pools - old(pools))
      ensures |stack| == |old(stack)| && stack[l] == old(stack[l]).(pool := stack[l].pool)
    {
      hide CoreOf;
      var pool := new Pool<X>();
      var f := stack[l].(pool := pool);
      ClearCore(Now(), env, l, f);
      heap.Free(ChunkBlocks(stack[l].pool.chunks));
      stack, chunks, pools := stack[l := f], chunks[l := map[]], pools + {pool};
    }

    /** Gives a kept frame a new memory vector. */
    method RenewVector(l: nat, contents: seq<X>)
      requires Valid() && top < l < |stack|
      modifies this`stack, heap
      ensures Valid() && |stack| == |old(stack)| && stack[l] == old(stack[l]).(vector := stack[l].vector)
      ensures stack[l].vector.len == |contents|
    {
      hide CoreOf, PoolsOk;
      EnvHasFrames(Now(), env);
      ghost var n := Now();
      var gone := stack[l].vector.block;
      var v := heap.Alloc(contents);
      var f := stack[l].(vector := v);
      VectorCore(n, env, l, f, contents);
      heap.Free({gone});
      SetFrame(l, f);
    }

    /** Every hundredth use of a frame renews everything it holds; its memory frame is a pool afterwards. */
    method Tick(l: nat)
      requires Valid() && top < l < |stack|
      modifies this`stack, this`chunks, this`pools, heap
      ensures Valid() && |stack| == |old(stack)| && fresh(pools - old(pools))
      ensures var f, f0 := stack[l], old(stack)[l];
              if f0.counter + 1 < TICKS then chunks == old(chunks) && f == f0.(counter := f0.counter + 1)
              else
                && chunks == old(chunks)[l := map[]]
                && f.callframeSize == 0 && f.callframe == EMPTY_CALLFRAME && f.callframeIsVector == f0.callframeIsVector
                && !f.memIsVector && f.counter == 0
    {
      hide CoreOf, PoolsOk;
      PoolsLength();
      ChangeFrame(l, stack[l].(counter := stack[l].counter + 1));
      if stack[l].counter < TICKS {
        return;
      }
      ChangeFrame(l,
                  stack[l].(callframe := EMPTY_CALLFRAME, callframeSize := 0,
                            callframeVector := seq(VEC_SIZE_INIT, i => NULL)));
      RenewPool(l);
      RenewVector(l, seq(VEC_SIZE_INIT, i => default));
      ChangeFrame(l, stack[l].(unallocated := map[], memIsVector := false, counter := 0));
    }

    lemma PoolsLength()
      requires PoolsOk()
      ensures |chunks| == |stack|
    {
    }

    /** Readies the frame above the current one, growing the stack if there is none. */
    method ReuseFrame(callVec: bool, memVec: bool)
      requires Valid()
      modifies this`stack, this`chunks, this`pools, heap, pools
      ensures Valid() && fresh(pools - old(pools)) && top + 1 < |stack| == |chunks|
      ensures var f := stack[top + 1];
              && f.callframeIsVector == callVec && f.memIsVector == memVec && f.callframeSize == 0
              && (!callVec ==> f.callframe == EMPTY_CALLFRAME) && (!memVec ==> chunks[top + 1] == map[])
    {
      hide CoreOf, PoolsOk;
      PoolsLength();
      EnvHasFrames(Now(), env);
      var l := top + 1;
      if |stack| <= l {
        GrowStack();
        ChangeFrame(l, stack[l].(callframeIsVector := callVec, memIsVector := memVec));
      } else {
        ChangeFrame(l, stack[l].(callframeIsVector := callVec, memIsVector := memVec, callframeSize := 0));
        if !callVec {
          ChangeFrame(l, stack[l].(callframe := EMPTY_CALLFRAME));
        }
        if !memVec {
          ClearPool(l);
          ChangeFrame(l, stack[l].(unallocated := map[]));
        }
      }
    }

    /** The two vectors of a frame, grown to what is asked for. */
    method GrowVectors(l: nat, argsCount: Option<nat>, vectorSize: Option<nat>, callVec: bool, memVec: bool)
      requires Valid() && top < l < |stack| == |chunks| && stack[l].callframeIsVector == callVec
      requires stack[l].callframeSize == 0 && (!callVec ==> stack[l].callframe == EMPTY_CALLFRAME)
      requires stack[l].memIsVector ==> memVec
      requires !stack[l].memIsVector ==> chunks[l] == map[]
      requires callVec ==> argsCount.Some?
      requires memVec ==> vectorSize.Some?
      modifies this`stack, heap
      ensures Valid() && |stack| == |old(stack)| && Prepared(stack[l], chunks[l], argsCount, vectorSize)
    {
      hide CoreOf, PoolsOk;
      if callVec && argsCount.value + 1 > |stack[l].callframeVector| {
        var v := stack[l].callframeVector;
        ChangeFrame(l, stack[l].(callframeVector := v + seq(argsCount.value + 1 - |v|, i => NULL)));
      }
      if memVec && vectorSize.value + 1 > stack[l].vector.len {
        ResizeVector(l, vectorSize.value + 1);
      }
    }

    /** Enters a new frame. Small argument lists are kept as a vector of addresses, small memory frames as a vector. */
    method PushFrame(argsCount: Option<nat>, vectorSize: Option<nat>)
      requires Valid()
      modifies this`stack, this`chunks, this`pools, this`top, this`env, heap, pools
      ensures Valid() && fresh(pools - old(pools)) && env == EnvPush(old(env), argsCount, vectorSize)
      ensures top == old(top) + 1
    {
      hide CoreOf, PoolsOk, EnvPush, Prepared;
      var callVec := argsCount.Some? && argsCount.value < VEC_SIZE_CALLFRAME_THRESHOLD;
      var memVec := vectorSize.Some? && vectorSize.value < VEC_SIZE_MEMFRAME_THRESHOLD;
      var l := top + 1;
      ReuseFrame(callVec, memVec);
      Tick(l);
      PoolsLength();
      GrowVectors(l, argsCount, vectorSize, callVec, memVec);
      PushCore(Now(), env, argsCount, vectorSize);
      top := l;
      env := EnvPush(env, argsCount, vectorSize);
    }

    /** `resize`: the old contents, then defaults, in a new buffer. */
    method ResizeVector(l: nat, len: nat)
      requires Valid() && top < l < |stack| && len >= stack[l].vector.len
      modifies this`stack, heap
      ensures Valid() && |stack| == |old(stack)| && stack[l] == old(stack[l]).(vector := stack[l].vector)
      ensures stack[l].vector.len == len
    {
      hide CoreOf, PoolsOk;
      VectorLive(Now(), env, l);
      var contents := heap.blocks[stack[l].vector.block];
      RenewVector(l, contents + seq(len - |contents|, i => default));
    }

    /** Leaves the current frame; oversized call frames are dropped. */
    method PopFrame()
      requires Valid() && top > 0
      modifies this`stack, this`top, this`env
      ensures Valid() && env == EnvPop(old(env)) && top == old(top) - 1
    {
      hide CoreOf, PoolsOk, Trimmed, EnvPop;
      EnvHasFrames(Now(), env);
      PopTrimmed(Now(), env);
      SetFrame(top, Trimmed(stack[top]));
      top := top - 1;
      env := EnvPop(env);
    }

    // ---- allocation ----

    /** A new chunk of default values in the pool of a live frame. */
    method InsertChunk(l: nat, first: nat, count: nat)
      requires Valid() && l <= top && l < |env.frames| && count > 0 && !stack[l].memIsVector
      requires Fresh(env, l, first, count)
      modifies this`chunks, this`env, heap, pools
      ensures Valid() && env == AddRange(old(env), l, first, count)
    {
      hide CoreOf, Fresh, AddRange;
      ghost var n, e := Now(), env;
      InsertRoom(n, env, l, first, count);
      var contents := seq(count, i => default);
      var v := heap.Alloc(contents);
      InsertCore(n, env, l, first, v, contents);
      stack[l].pool.Insert(first, v);
      chunks := chunks[l := Added(chunks[l], first, v)];
      env := AddRange(env, l, first, count);
    }

    method AllocationNew(first: nat, last: nat)
      requires Valid() && first <= last && NewAllowed(env, first, last - first + 1)
      modifies this`chunks, this`env, heap, pools
      ensures Valid() && env == EnvNew(old(env), first, last - first + 1)
    {
      hide CoreOf, Fresh, PoolsOk;
      EnvHasFrames(Now(), env);
      if !stack[top].memIsVector {
        InsertChunk(top, first, last - first + 1);
      } else {
        RangeCore(Now(), env, top, first, last - first + 1);
        env := AddRange(env, top, first, last - first + 1);
      }
    }

    method RemoveChunkAt(curr: nat) returns (howMany: nat)
      requires Valid() && env.frames != [] && curr in env.Top().chunks && !stack[top].memIsVector
      modifies this`chunks, this`env, heap, pools
      ensures Valid() && howMany == old(env.Top().chunks[curr]) && env == EnvDelete(old(env), curr, howMany)
    {
      hide CoreOf, EnvDelete;
      ghost var n := Now();
      RemoveCore(n, env, curr);
      ghost var e' := EnvDelete(env, curr, env.Top().chunks[curr]);
      var v := stack[top].pool.Remove(curr);
      howMany := v.len;
      heap.Free({v.block});
      chunks := chunks[top := Dropped(chunks[top], curr)];
      env := e';
    }

    /** Frees chunk after chunk; on a range that whole chunks tile, it ends having freed exactly that range. */
    method AllocationDelete(first: nat, last: nat)
      requires Valid() && first <= last && env.frames != [] && Tiled(env.Top().chunks, first, last - first + 1)
      modifies this`chunks, this`env, heap, pools
      ensures Valid() && env == EnvDelete(old(env), first, last - first + 1)
    {
      hide CoreOf, PoolsOk, EnvDelete, Tiled;
      EnvHasFrames(Now(), env);
      if stack[top].memIsVector {
        ForgetCore(Now(), env, first, last - first + 1);
        env := EnvDelete(env, first, last - first + 1);
        return;
      }
      var remaining, curr := last - first + 1, first;
      while true
        invariant Valid() && env.frames != [] && remaining > 0 && Tiled(env.Top().chunks, curr, remaining)
        invariant EnvDelete(env, curr, remaining) == EnvDelete(old(env), first, last - first + 1)
        decreases remaining
      {
        TiledStep(env, curr, remaining);
        ghost var e := env;
        var howMany := RemoveChunkAt(curr);
        remaining := remaining - howMany;
        curr := curr + howMany;
        if remaining == 0 {
          break;
        }
        EnvHasFrames(Now(), env);
        DeleteSplits(e, curr - howMany, remaining + howMany);
        DeleteLeavesTiled(e, curr - howMany, remaining + howMany);
      }
    }

    // ---- passing slices ----

    /** Where the caller's wires src, src + 1, ... are: a slice it was given itself, its vector, a chunk of its pool,
        or a single unallocated wire. A range of wires that is nowhere yet is allocated in its pool. */
    method SourceAddr(src: nat, count: nat, output: bool) returns (addr: AbsoluteAddr)
      requires Valid() && SliceAllowed(env, src, count, output)
      modifies this`chunks, this`env, heap, pools
      ensures Valid() && env == EnvSource(old(env), src, count)
      ensures SliceAt(Now(), Targets(old(env), |old(env).frames| - 2, src, count), addr)
    {
      hide CoreOf, PoolsOk, SliceAt, Fresh, Within, InOneChunk, Holding, AddRange, AtWire;
      EnvHasFrames(Now(), env);
      ghost var e := env;
      var l := top - 1;
      FrameSizes(Now(), env, l);
      var f := stack[l];
      if src < f.callframeSize {
        PassedOn(Now(), env, src, count, output);
        return ArgAddr(f, src).value;
      }
      if f.memIsVector {
        if count > 1 && !InOneChunk(env.frames[l].chunks, src, count) {
          RangeCore(Now(), env, l, src, count);
          env := AddRange(env, l, src, count);
        }
        SourceKeeps(e, src, count);
        InVector(Now(), env, l, src, count);
        return VectorAllocated(f.vector.block, src - f.callframeSize);
      }
      SameRanges(Now(), env, l, src, count);
      var here, block, offset := FindInPool(l, src);
      if here {
        InPool(Now(), env, l, src, count, block, offset);
        return PoolAllocated(block, offset);
      }
      if count == 1 {
        InSlot(Now(), env, l, src);
        return Unallocated(l, src);
      }
      InsertChunk(l, src, count);
      NowInOneChunk(e, l, src, count);
      SourceKeeps(e, src, count);
      SameRanges(Now(), env, l, src, count);
      here, block, offset := FindInPool(l, src);
      InPool(Now(), env, l, src, count, block, offset);
      return PoolAllocated(block, offset);
    }

    /** The callee's call frame grows by `count` arguments, at addr and after. */
    method AppendSlice(addr: AbsoluteAddr, ghost ts: seq<Target>, count: nat, output: bool)
      requires Valid() && SliceAt(Now(), ts, addr) && |ts| == count > 0
      requires env.frames != [] && env.Top().chunks == map[] && (output ==> !env.Top().inputs)
      requires env.Top().maxArgs.Some? ==> |env.Top().args| + count <= env.Top().maxArgs.value
      requires forall t: Target :: t in env.store ==> t.level < |env.frames| - 1
      requires forall i :: 0 <= i < |ts| ==> ts[i].level < top && Within(env, ts[i])
      modifies this`stack, this`env
      ensures Valid() && env == PushTargets(old(env), ts, output)
    {
      hide CoreOf, PoolsOk, SliceAt, Within, CallframeOk, Appended, PushTargets;
      EnvHasFrames(Now(), env);
      FrameSizes(Now(), env, top);
      TopFrame(Now(), env);
      SliceSingle(Now(), ts, addr);
      var f := stack[top];
      var start := f.callframeSize;
      var f';
      if f.callframeIsVector {
        var v := f.callframeVector;
        for i := 0 to count
          invariant |v| == |f.callframeVector| && v[..start] == f.callframeVector[..start]
          invariant forall j :: 0 <= j < i ==> v[start + j] == addr.Incr(j)
        {
          v := v[start + i := addr.Incr(i)];
        }
        f' := f.(callframeSize := start + count, callframeVector := v);
        AppendedVector(f, v, addr, count, output);
      } else {
        f' := f.(callframeSize := start + count,
                 callframe := AppendList(f.callframe, MakeElm(start, count, addr), count, output));
        AppendedList(f, addr, count, output);
      }
      AppendCore(Now(), env, f', addr, ts, output);
      AppendedPool(f, f', addr, count, output);
      SetFrame(top, f');
      env := PushTargets(env, ts, output);
    }

    /** Passes the caller's wires srcFirst..srcLast as the callee's next arguments, under whatever alias they have. */
    method AllocateSlice(srcFirst: nat, srcLast: nat, count: nat, allowAllocation: bool)
      requires Valid() && srcFirst <= srcLast && count == srcLast - srcFirst + 1
      requires SliceAllowed(env, srcFirst, count, allowAllocation)
      modifies this`stack, this`chunks, this`env, heap, pools
      ensures Valid() && env == EnvSlice(old(env), srcFirst, count, allowAllocation)
    {
      hide CoreOf, PoolsOk, SliceAt, Within, InOneChunk, Fresh, EnvSlice, EnvSource, PushTargets;
      EnvHasFrames(Now(), env);
      ghost var e := env;
      ghost var ts := Targets(e, |e.frames| - 2, srcFirst, count);
      SliceTargets(Now(), e, srcFirst, count, allowAllocation);
      SourceKeeps(e, srcFirst, count);
      SliceSplits(e, srcFirst, count, allowAllocation);
      var addr := SourceAddr(srcFirst, count, allowAllocation);
      AppendSlice(addr, ts, count, allowAllocation);
    }
  }
}
