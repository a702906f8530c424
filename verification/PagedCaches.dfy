/** The paged cache objects (edgerag/cache/block_table.py, edgerag/cache/paged.py): tables that grow,
    fork and split, and the update loop that writes into the shared pool, each method proved to do
    exactly what the functions of Paging.dfy say. */
module PagedCaches {
  import opened Common
  import opened Tensors
  import opened Paging
  import opened Allocator
  import B = BlockPools
  import P = Pools

  class BlockTable {
    const allocator: BlockAllocator
    var blocks: seq<Block>
    var numTokens: nat

    constructor (allocator: BlockAllocator)
      ensures this.allocator == allocator && View() == EMPTY_TABLE
    {
      this.allocator := allocator;
      blocks, numTokens := [], 0;
    }

    ghost function View(): Table
      reads this
    {
      Table(blocks, numTokens)
    }

    method Locate(position: int) returns (r: Result<(Block, nat)>)
      requires allocator.Valid()
      ensures r == Paging.Locate(View(), allocator.blockSize, position)
    {
      if !(0 <= position < numTokens) {
        return Err(IndexError);
      }
      DivBounds(position, allocator.blockSize);
      var k := position / allocator.blockSize;
      if k >= |blocks| {
        return Err(IndexError);
      }
      return Ok((blocks[k], position % allocator.blockSize));
    }

    method EnsureCapacity(n: int) returns (r: Result<seq<Block>>)
      requires allocator.Valid()
      modifies this, allocator
      ensures allocator.Valid()
      ensures TableOut(allocator.View(), View(), r) == Paging.EnsureCapacity(old(allocator.View()), old(View()), n)
    {
      if n < 0 {
        return Err(ValueError);
      }
      var needed := CeilDiv(n, allocator.blockSize);
      if needed <= |blocks| {
        return Ok([]);
      }
      var taken := allocator.Allocate(needed - |blocks|);
      if taken.Err? {
        return Err(taken.error);
      }
      blocks := blocks + taken.value;
      return taken;
    }

    method Append(n: nat) returns (r: Result<seq<Block>>)
      requires allocator.Valid()
      modifies this, allocator
      ensures allocator.Valid()
      ensures TableOut(allocator.View(), View(), r) == Paging.Append(old(allocator.View()), old(View()), n)
    {
      r := EnsureCapacity(numTokens + n);
      if r.Ok? {
        numTokens := numTokens + n;
      }
    }

    method Fork() returns (r: Result<BlockTable>)
      requires allocator.Valid()
      modifies allocator
      ensures allocator.Valid()
      ensures var o := ForkTable(old(allocator.View()), View());
        && allocator.View() == o.pool && (r.Ok? <==> o.result.Ok?)
        && (r.Err? ==> r.error == o.result.error)
        && (r.Ok? ==> fresh(r.value) && r.value.allocator == allocator && r.value.View() == o.result.value)
    {
      var shared := allocator.Incref(blocks);
      if shared.Err? {
        return Err(shared.error);
      }
      var child := new BlockTable(allocator);
      child.blocks, child.numTokens := blocks, numTokens;
      return Ok(child);
    }

    method Unshare(k: nat) returns (r: Result<Option<(Block, Block)>>)
      requires allocator.Valid()
      modifies this, allocator
      ensures allocator.Valid()
      ensures TableOut(allocator.View(), View(), r) == Paging.Unshare(old(allocator.View()), old(View()), k)
    {
      if k >= |blocks| {
        return Err(IndexError);
      }
      var old_ := blocks[k];
      var new_ := allocator.CopyOnWrite(old_);
      if new_.Err? {
        return Err(new_.error);
      }
      if new_.value == old_ {
        return Ok(None);
      }
      blocks := blocks[k := new_.value];
      return Ok(Some((old_, new_.value)));
    }

    method Free() returns (r: Result<nat>)
      requires allocator.Valid()
      modifies this, allocator
      ensures allocator.Valid()
      ensures TableOut(allocator.View(), View(), r) == FreeTable(old(allocator.View()), old(View()))
    {
      r := allocator.Free(blocks);
      if r.Ok? {
        blocks, numTokens := [], 0;
      }
    }
  }

  /** One sequence paging into a pool that others page into too. */
  class PagedKVCache {
    const allocator: BlockAllocator
    const pool: array3<KV>
    const table: BlockTable
    const firstLayer: nat
    var pending: nat

    ghost predicate Valid()
      reads this, allocator
    {
      allocator.Valid() && table.allocator == allocator
    }

    ghost function Arena(): Store
      reads allocator, pool
    {
      Store(allocator.View(), B.View(pool))
    }

    ghost function View(): Cache
      reads this, table
    {
      Cache(table.View(), pending, firstLayer)
    }

    constructor (allocator: BlockAllocator, pool: array3<KV>, firstLayer: nat)
      requires allocator.Valid()
      ensures Valid() && fresh(table) && View() == Cache(EMPTY_TABLE, 0, firstLayer)
      ensures this.allocator == allocator && this.pool == pool
    {
      this.allocator, this.pool, this.firstLayer := allocator, pool, firstLayer;
      table := new BlockTable(allocator);
      pending := 0;
    }

    constructor Over(allocator: BlockAllocator, pool: array3<KV>, firstLayer: nat, table: BlockTable)
      requires allocator.Valid() && table.allocator == allocator
      ensures Valid() && this.table == table && View() == Cache(table.View(), 0, firstLayer)
      ensures this.allocator == allocator && this.pool == pool
    {
      this.allocator, this.pool, this.firstLayer := allocator, pool, firstLayer;
      this.table := table;
      pending := 0;
    }

    /** `_unshare_write_range`: copy-on-write over logical blocks, contents copied in every layer. */
    method UnshareWriteRange(first: nat, last: int) returns (r: Result<()>)
      requires Valid()
      modifies table, allocator, pool
      ensures Valid()
      ensures Out(Arena(), View(), r) == UnshareRange(old(Arena()), old(View()), first, last)
    {
      var k := first;
      while k <= last
        invariant Valid()
        invariant UnshareRange(Arena(), View(), k, last) == UnshareRange(old(Arena()), old(View()), first, last)
        decreases last + 1 - k
      {
        ghost var s, c := Arena(), View();
        var copied := table.Unshare(k);
        assert B.View(pool) == s.kv;
        match copied {
          case Err(e) =>
            assert Arena() == s.(pool := allocator.View()) && View() == c.(table := table.View());
            return Err(e);
          case Ok(None) =>
            assert Arena() == s.(pool := allocator.View()) && View() == c.(table := table.View());
          case Ok(Some((old_, new_))) =>
            B.CopyBlockIn(pool, old_, new_);
            assert Arena() == Store(allocator.View(), CopyBlock(s.kv, old_, new_)) && View() == c.(table := table.View());
        }
        k := k + 1;
      }
      return Ok(());
    }

    /** The once-per-forward bookkeeping of `update`. */
    method Begin(n: nat) returns (r: Result<()>)
      requires Valid()
      modifies this, table, allocator, pool
      ensures Valid()
      ensures Out(Arena(), View(), r) == Paging.Begin(old(Arena()), old(View()), n)
    {
      hide UnshareRange;
      ghost var s, c := Arena(), View();
      pending := n;
      var start := table.numTokens;
      var grown := table.Append(n);
      assert B.View(pool) == s.kv;
      assert Arena() == s.(pool := allocator.View()) && View() == c.(pending := n, table := table.View());
      if grown.Err? {
        return Err(grown.error);
      }
      if table.blocks == [] {
        return Ok(());
      }
      r := UnshareWriteRange(Div(start, allocator.blockSize), Div(start + n - 1, allocator.blockSize));
    }

    /** `update`: grow and split on the first layer, write, and return the whole history. */
    method Update(xs: seq<KV>, layer: nat) returns (r: Result<seq<KV>>)
      requires Valid() && firstLayer <= layer
      modifies this, table, allocator, pool
      ensures Valid()
      ensures Out(Arena(), View(), r) == Paging.Update(old(Arena()), old(View()), layer, xs)
    {
      hide Paging.Begin, Write, Gather;
      if layer == firstLayer {
        var begun := Begin(|xs|);
        if begun.Err? {
          return Err(begun.error);
        }
      }
      var start := table.numTokens - pending;
      var l := layer - firstLayer;
      if start < 0 || start + |xs| > |table.blocks| * allocator.blockSize || l >= pool.Length0 {
        return Err(IndexError);
      }
      B.WriteIn(pool, l, table.blocks, allocator.blockSize, start, xs);
      var history := B.GatherFrom(pool, l, Table(table.blocks, table.numTokens));
      return Ok(history);
    }

    method Fork() returns (r: Result<PagedKVCache>)
      requires Valid()
      modifies allocator
      ensures Valid()
      ensures var o := ForkTable(old(allocator.View()), table.View());
        && allocator.View() == o.pool && (r.Ok? <==> o.result.Ok?)
        && (r.Err? ==> r.error == o.result.error)
        && (r.Ok? ==> fresh(r.value) && fresh(r.value.table) && r.value.Valid() && r.value.allocator == allocator && r.value.pool == pool
                      && r.value.View() == Cache(o.result.value, 0, firstLayer))
    {
      var child := table.Fork();
      if child.Err? {
        return Err(child.error);
      }
      var cache := new PagedKVCache.Over(allocator, pool, firstLayer, child.value);
      return Ok(cache);
    }

    method Free() returns (r: Result<nat>)
      requires Valid()
      modifies table, allocator
      ensures Valid()
      ensures TableOut(allocator.View(), table.View(), r) == FreeTable(old(allocator.View()), old(table.View()))
    {
      r := table.Free();
    }
  }
}
