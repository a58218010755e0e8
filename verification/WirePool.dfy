/** The allocator's blocks, and the pool of allocated wire ranges with its one-entry cache. */
module WirePool {
  import opened Options
  import opened WireLayout

  /** The memory behind all vectors: live blocks only. Block 0 is never handed out (the null pointer). */
  class Heap<X> {
    var blocks: map<nat, seq<X>>
    var next: nat

    ghost predicate Valid()
      reads this
    {
      next > 0 && forall b :: b in blocks ==> 0 < b < next
    }

    constructor ()
      ensures Valid() && blocks == map[]
    {
      blocks, next := map[], 1;
    }

    method Alloc(contents: seq<X>) returns (v: Vec)
      requires Valid()
      modifies this
      ensures Valid() && v.block !in old(blocks) && v.block != 0 && v.len == |contents|
      ensures blocks == old(blocks)[v.block := contents]
    {
      v := Vec(next, |contents|);
      blocks := blocks[next := contents];
      next := next + 1;
    }

    method Free(freed: set<nat>)
      requires Valid()
      modifies this
      ensures Valid() && blocks == Without(old(blocks), freed)
    {
      blocks := Without(blocks, freed);
    }

    method Read(block: nat, offset: nat) returns (x: X)
      requires block in blocks && offset < |blocks[block]|
      ensures x == blocks[block][offset]
    {
      x := blocks[block][offset];
    }

    method Write(block: nat, offset: nat, x: X)
      requires Valid() && block in blocks && offset < |blocks[block]|
      modifies this
      ensures Valid() && blocks == old(blocks)[block := old(blocks[block])[offset := x]]
    {
      blocks := blocks[block := blocks[block][offset := x]];
    }
  }

  /** `range(..=id).last()`: the greatest key at most id. */
  function FloorKey(chunks: map<nat, Vec>, id: nat): (k: Option<nat>)
    ensures k.None? ==> forall f :: f in chunks ==> id < f
    ensures k.Some? ==> k.value in chunks && k.value <= id && forall f :: f in chunks && f <= id ==> f <= k.value
  {
    if id in chunks then Some(id) else if id == 0 then None else FloorKey(chunks, id - 1)
  }

  datatype Cache = Cache(first: nat, last: nat, block: Option<nat>)

  class Pool<X> {
    var chunks: map<nat, Vec>
    var cache: Cache

    /** The cached entry, if any, describes a chunk that is still there. */
    ghost predicate Coherent()
      reads this
    {
      cache.block.Some? ==>
        && cache.first in chunks && chunks[cache.first].block == cache.block.value
        && cache.last + 1 == cache.first + chunks[cache.first].len
    }

    ghost predicate Valid()
      reads this
    {
      && Coherent()
      && (forall f :: f in chunks ==> chunks[f].len > 0)
      && (forall f, g :: f in chunks && g in chunks && f < g ==> f + chunks[f].len <= g)
    }

    constructor ()
      ensures Valid() && chunks == map[]
    {
      chunks, cache := map[], Cache(0, 0, None);
    }

    method Clear()
      modifies this
      ensures Valid() && chunks == map[]
    {
      chunks, cache := map[], Cache(0, 0, None);
    }

    method Present(id: nat) returns (here: bool)
      requires Valid()
      modifies this`cache
      ensures Valid()
      ensures here <==> exists f :: Holding(chunks, f, id)
    {
      if cache.block.Some? && cache.first <= id <= cache.last {
        assert Holding(chunks, cache.first, id);
        return true;
      }
      var k := FloorKey(chunks, id);
      if k.None? {
        return false;
      }
      var v := chunks[k.value];
      var last := k.value + v.len - 1;
      if k.value <= id <= last {
        cache := Cache(k.value, last, Some(v.block));
        assert Holding(chunks, k.value, id);
        return true;
      }
      forall f: nat ensures !Holding(chunks, f, id) {
        assert f in chunks && f <= id ==> f <= k.value;
      }
      return false;
    }

    method MoveToCacheIfNecessary(id: nat)
      requires Valid() && exists f :: Holding(chunks, f, id)
      modifies this`cache
      ensures Valid() && cache.block.Some? && cache.first <= id <= cache.last
    {
      if cache.block.Some? && cache.first <= id <= cache.last {
        return;
      }
      ghost var f: nat :| Holding(chunks, f, id);
      var k := FloorKey(chunks, id);
      assert k.Some? && f == k.value;
      var v := chunks[k.value];
      cache := Cache(k.value, k.value + v.len - 1, Some(v.block));
    }

    /** The address of an allocated wire. */
    method GetPtr(id: nat) returns (block: nat, offset: nat)
      requires Valid() && exists f :: Holding(chunks, f, id)
      modifies this`cache
      ensures Valid()
      ensures forall f :: Holding(chunks, f, id) ==> block == chunks[f].block && offset == id - f
    {
      MoveToCacheIfNecessary(id);
      block, offset := cache.block.value, id - cache.first;
      forall f: nat | Holding(chunks, f, id) ensures f == cache.first {
        assert f < cache.first || cache.first < f || f == cache.first;
      }
    }

    method Insert(first: nat, v: Vec)
      requires Valid() && v.len > 0 && first !in chunks
      requires forall f :: f in chunks ==> f + chunks[f].len <= first || first + v.len <= f
      modifies this
      ensures Valid() && chunks == old(chunks)[first := v]
    {
      chunks := chunks[first := v];
      cache := Cache(0, 0, None);
    }

    method Remove(first: nat) returns (v: Vec)
      requires Valid() && first in chunks
      modifies this
      ensures Valid() && v == old(chunks)[first] && chunks == Dropped(old(chunks), first)
    {
      cache := Cache(0, 0, None);
      v := chunks[first];
      chunks := Dropped(chunks, first);
    }

    // ---- seen as a plain map from wires to values ----

    method Get(heap: Heap<X>, id: nat) returns (x: X)
      requires Valid() && Backed(chunks, heap.blocks) && exists f :: Holding(chunks, f, id)
      modifies this`cache
      ensures Valid() && chunks == old(chunks)
      ensures WireIs(chunks, heap.blocks, id, x) && forall y :: WireIs(chunks, heap.blocks, id, y) ==> y == x
    {
      var block, offset := GetPtr(id);
      ghost var f: nat :| Holding(chunks, f, id);
      x := heap.Read(block, offset);
      assert Holding(chunks, f, id) && heap.blocks[chunks[f].block][id - f] == x;
    }

    /** Setting a wire changes that wire and no other. */
    method Set(heap: Heap<X>, id: nat, x: X)
      requires Valid() && heap.Valid() && Backed(chunks, heap.blocks) && exists f :: Holding(chunks, f, id)
      modifies this`cache, heap
      ensures Valid() && heap.Valid() && Backed(chunks, heap.blocks) && chunks == old(chunks)
      ensures WireIs(chunks, heap.blocks, id, x)
      ensures forall j, y :: j != id ==> (WireIs(chunks, heap.blocks, j, y) <==> WireIs(chunks, old(heap.blocks), j, y))
    {
      var block, offset := GetPtr(id);
      ghost var f: nat :| Holding(chunks, f, id);
      WriteOne(chunks, heap.blocks, f, id, x);
      heap.Write(block, offset, x);
    }
  }

  /** Every chunk has its own live block. */
  ghost predicate Backed<X>(chunks: map<nat, Vec>, blocks: map<nat, seq<X>>) {
    && (forall f :: f in chunks ==> Allocated(blocks, chunks[f]))
    && (forall f, g :: f in chunks && g in chunks && f != g ==> chunks[f].block != chunks[g].block)
  }

  ghost predicate WireIs<X>(chunks: map<nat, Vec>, blocks: map<nat, seq<X>>, id: nat, x: X) {
    exists f :: Holding(chunks, f, id) && Allocated(blocks, chunks[f]) && blocks[chunks[f].block][id - f] == x
  }

  lemma WriteOne<X>(chunks: map<nat, Vec>, blocks: map<nat, seq<X>>, f: nat, id: nat, x: X)
    requires Backed(chunks, blocks) && Holding(chunks, f, id)
    requires forall f, g :: f in chunks && g in chunks && f < g ==> f + chunks[f].len <= g
    ensures var b := chunks[f].block;
            var blocks' := blocks[b := blocks[b][id - f := x]];
            && Backed(chunks, blocks') && WireIs(chunks, blocks', id, x)
            && forall j, y :: j != id ==> (WireIs(chunks, blocks', j, y) <==> WireIs(chunks, blocks, j, y))
  {
    var b := chunks[f].block;
    var blocks' := blocks[b := blocks[b][id - f := x]];
    assert Holding(chunks, f, id) && blocks'[b][id - f] == x;
    forall j: nat, y | j != id ensures WireIs(chunks, blocks', j, y) <==> WireIs(chunks, blocks, j, y) {
      forall g: nat | Holding(chunks, g, j) ensures blocks'[chunks[g].block][j - g] == blocks[chunks[g].block][j - g] {
      }
    }
  }
}
