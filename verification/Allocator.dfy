/** The allocator object (edgerag/cache/allocator.py), method by method against Pools.dfy. */
module Allocator {
  import opened Common
  import P = Pools

  class BlockAllocator {
    const numBlocks: nat
    const blockSize: nat
    var refcount: seq<nat>
    var free: seq<Block>

    ghost predicate Valid()
      reads this
    {
      blockSize > 0 && |refcount| == numBlocks
    }

    ghost function View(): P.Pool
      reads this
    {
      P.Pool(blockSize, refcount, free)
    }

    constructor (numBlocks: nat, blockSize: nat)
      requires numBlocks > 0 && blockSize > 0
      ensures Valid() && View() == P.Init(numBlocks, blockSize)
      ensures this.numBlocks == numBlocks && this.blockSize == blockSize
    {
      this.numBlocks := numBlocks;
      this.blockSize := blockSize;
      refcount := seq(numBlocks, i => 0);
      free := seq(numBlocks, i => numBlocks - 1 - i);
    }

    method Allocate(n: int) returns (r: Result<seq<Block>>)
      requires Valid()
      modifies this
      ensures Valid()
      ensures P.Outcome(View(), r) == P.Allocate(old(View()), n)
    {
      if n < 0 {
        return Err(ValueError);
      }
      if n > |free| {
        return Err(OutOfBlocks);
      }
      var blocks: seq<Block> := [];
      ghost var before := free;
      while |blocks| < n
        invariant |blocks| <= n <= |before|
        invariant free == before[..|before| - |blocks|]
        invariant refcount == old(refcount)
        invariant blocks == P.Popped(before, |blocks|)
      {
        blocks := blocks + [free[|free| - 1]];
        free := free[..|free| - 1];
      }
      var i := 0;
      while i < |blocks|
        invariant 0 <= i <= |blocks|
        invariant free == before[..|before| - n]
        invariant |refcount| == numBlocks
        invariant refcount == P.SetCounts(old(refcount), blocks[..i], 1)
      {
        if 0 <= blocks[i] < |refcount| {
          refcount := refcount[blocks[i] := 1];
        }
        assert blocks[..i + 1] == blocks[..i] + [blocks[i]];
        i := i + 1;
      }
      assert blocks[..i] == blocks;
      return Ok(blocks);
    }

    method Free(blocks: seq<Block>) returns (r: Result<nat>)
      requires Valid()
      modifies this
      ensures Valid()
      ensures P.Outcome(View(), r) == P.Free(old(View()), blocks)
    {
      var reclaimed := 0;
      var i := 0;
      while i < |blocks|
        invariant 0 <= i <= |blocks|
        invariant Valid()
        invariant var rest := P.Free(View(), blocks[i..]);
          P.Free(old(View()), blocks) ==
            match rest.result
            case Ok(n) => P.Outcome(rest.pool, Ok(n + reclaimed))
            case Err(e) => rest
      {
        assert blocks[i..][0] == blocks[i] && blocks[i..][1..] == blocks[i + 1..];
        var b := blocks[i];
        if !(0 <= b < numBlocks) {
          return Err(AllocatorMisuse);
        }
        if refcount[b] == 0 {
          return Err(DoubleFree);
        }
        refcount := refcount[b := refcount[b] - 1];
        if refcount[b] == 0 {
          free := free + [b];
          reclaimed := reclaimed + 1;
        }
        i := i + 1;
      }
      return Ok(reclaimed);
    }

    method Incref(blocks: seq<Block>) returns (r: Result<()>)
      requires Valid()
      modifies this
      ensures Valid()
      ensures P.Outcome(View(), r) == P.Incref(old(View()), blocks)
    {
      var i := 0;
      while i < |blocks|
        invariant 0 <= i <= |blocks|
        invariant View() == old(View())
        invariant forall k :: 0 <= k < i ==> P.InRange(View(), blocks[k]) && refcount[blocks[k]] > 0
      {
        var b := blocks[i];
        if !(0 <= b < numBlocks) || refcount[b] == 0 {
          assert !P.Increfable(View(), blocks);
          return Err(AllocatorMisuse);
        }
        i := i + 1;
      }
      i := 0;
      while i < |blocks|
        invariant 0 <= i <= |blocks|
        invariant free == old(free) && Valid()
        invariant forall b :: 0 <= b < numBlocks ==> refcount[b] == old(refcount)[b] + multiset(blocks[..i])[b]
      {
        refcount := refcount[blocks[i] := refcount[blocks[i]] + 1];
        assert blocks[..i + 1] == blocks[..i] + [blocks[i]];
        i := i + 1;
      }
      assert blocks[..i] == blocks;
      assert refcount == P.AddCounts(old(refcount), blocks);
      return Ok(());
    }

    method CopyOnWrite(b: Block) returns (r: Result<Block>)
      requires Valid()
      modifies this
      ensures Valid()
      ensures P.Outcome(View(), r) == P.CopyOnWrite(old(View()), b)
    {
      if !(0 <= b < numBlocks) || refcount[b] == 0 {
        return Err(AllocatorMisuse);
      }
      if refcount[b] == 1 {
        return Ok(b);
      }
      var taken := Allocate(1);
      if taken.Err? {
        return Err(taken.error);
      }
      refcount := refcount[b := refcount[b] - 1];
      return Ok(taken.value[0]);
    }
  }
}
