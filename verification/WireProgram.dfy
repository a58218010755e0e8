/** Whole runs of wire memory: any well-formed sequence of operations reads exactly what the plain environment says. */
module WireProgram {
  import opened Options
  import opened WireEnvironment
  import opened WireMemory

  datatype Op<X> =
    | Push(args: Option<nat>, limit: Option<nat>)
    | Pop
    | Slice(first: nat, last: nat, allowAllocation: bool)
    | New(first: nat, last: nat)
    | Delete(first: nat, last: nat)
    | Set(id: nat, x: X)
    | Get(id: nat)

  /** What the program expects of its callers, operation by operation. */
  ghost predicate Allowed<X>(e: Env<X>, op: Op<X>) {
    && e.frames != []
    && match op
       case Push(_, _) => true
       case Pop => |e.frames| > 1
       case Slice(first, last, allow) => first <= last && SliceAllowed(e, first, last - first + 1, allow)
       case New(first, last) => first <= last && NewAllowed(e, first, last - first + 1)
       case Delete(first, last) => first <= last && Tiled(e.Top().chunks, first, last - first + 1)
       case Set(id, _) => Within(e, e.Resolve(id))
       case Get(id) => e.Resolve(id) in e.store
  }

  /** The plain environment after one operation. */
  ghost function Step<X>(e: Env<X>, op: Op<X>): Env<X>
    requires Allowed(e, op)
  {
    match op
    case Push(args, limit) => EnvPush(e, args, limit)
    case Pop => EnvPop(e)
    case Slice(first, last, allow) => EnvSlice(e, first, last - first + 1, allow)
    case New(first, last) => EnvNew(e, first, last - first + 1)
    case Delete(first, last) => EnvDelete(e, first, last - first + 1)
    case Set(id, x) => EnvSet(e, id, x)
    case Get(_) => e
  }

  ghost predicate WellFormedRun<X>(e: Env<X>, ops: seq<Op<X>>)
    decreases |ops|
  {
    ops == [] || (Allowed(e, ops[0]) && WellFormedRun(Step(e, ops[0]), ops[1..]))
  }

  /** The values that the `get`s of a run return, by the plain environment. */
  ghost function Reads<X>(e: Env<X>, ops: seq<Op<X>>): seq<X>
    requires WellFormedRun(e, ops)
    decreases |ops|
  {
    if ops == [] then []
    else (if ops[0].Get? then [e.store[e.Resolve(ops[0].id)]] else []) + Reads(Step(e, ops[0]), ops[1..])
  }

  /** One operation on the memory; `read` holds the value of a `get`. */
  method Execute<X>(m: Memory<X>, op: Op<X>) returns (read: seq<X>)
    requires m.Valid() && Allowed(m.env, op)
    modifies m, m.heap, m.pools
    ensures m.Valid() && m.env == Step(old(m.env), op) && fresh(m.pools - old(m.pools))
    ensures read == if op.Get? then [old(m.env).store[old(m.env).Resolve(op.id)]] else []
  {
    hide WireFrames.CoreOf, EnvPush, EnvPop, EnvSlice, EnvNew, EnvDelete, SliceAllowed, NewAllowed, Tiled, Within;
    hide m.PoolsOk;
    WireFrames.EnvHasFrames(m.Now(), m.env);
    read := [];
    match op
    case Push(args, limit) => m.PushFrame(args, limit);
    case Pop => m.PopFrame();
    case Slice(first, last, allow) => m.AllocateSlice(first, last, last - first + 1, allow);
    case New(first, last) => m.AllocationNew(first, last);
    case Delete(first, last) => m.AllocationDelete(first, last);
    case Set(id, x) => m.Set(id, x);
    case Get(id) =>
      var x := m.Get(id);
      read := [x];
  }

  lemma NextOp<X>(e: Env<X>, ops: seq<Op<X>>, i: nat)
    requires i < |ops| && WellFormedRun(e, ops[i..])
    ensures Allowed(e, ops[i]) && WellFormedRun(Step(e, ops[i]), ops[i + 1..])
    ensures Reads(e, ops[i..])
         == (if ops[i].Get? then [e.store[e.Resolve(ops[i].id)]] else []) + Reads(Step(e, ops[i]), ops[i + 1..])
  {
    hide Step;
    assert ops[i..][0] == ops[i] && ops[i..][1..] == ops[i + 1..];
  }

  lemma NothingLeft<X>(e: Env<X>, ops: seq<Op<X>>)
    requires WellFormedRun(e, ops[|ops|..])
    ensures Reads(e, ops[|ops|..]) == []
  {
  }

  /** Every `get` of a run returns the last value written to that wire through any of its names, whatever frames,
      slices and allocations come in between. */
  method RunProgram<X>(default: X, ops: seq<Op<X>>) returns (out: seq<X>)
    requires WellFormedRun(Initial<X>(), ops)
    ensures out == Reads(Initial<X>(), ops)
  {
    hide Allowed, Step, WellFormedRun, Reads, Memory.Valid;
    var m := new Memory<X>(default);
    out := [];
    for i := 0 to |ops|
      invariant m.Valid() && fresh(m) && fresh(m.heap) && fresh(m.pools)
      invariant WellFormedRun(m.env, ops[i..]) && out + Reads(m.env, ops[i..]) == Reads(Initial<X>(), ops)
    {
      NextOp(m.env, ops, i);
      var read := Execute(m, ops[i]);
      out := out + read;
    }
    NothingLeft(m.env, ops);
  }
}
