/** The prefix cache object (edgerag/cache/prefix.py): `entries` is the ordered dictionary, oldest use
    first, and each loop is proved against the functions of Prefixes.dfy. */
module PrefixCaches {
  import opened Common
  import opened Tensors
  import opened Paging
  import opened Prefixes
  import opened Allocator
  import P = Pools

  class PrefixCache {
    const allocator: BlockAllocator
    const maxBlocks: nat
    var entries: seq<Entry>

    constructor (allocator: BlockAllocator, maxBlocks: nat)
      ensures this.allocator == allocator && this.maxBlocks == maxBlocks && entries == []
    {
      this.allocator, this.maxBlocks := allocator, maxBlocks;
      entries := [];
    }

    /** Each full block's hash, threading the parent through. */
    method BlockHashes(tokens: seq<Token>) returns (hashes: seq<Hash>)
      requires allocator.Valid()
      ensures hashes == Prefixes.BlockHashes(tokens, allocator.blockSize)
    {
      var bs := allocator.blockSize;
      DivBounds(|tokens|, bs);
      var full := |tokens| / bs;
      hashes := [];
      var parent := Root;
      var i := 0;
      while i < full
        invariant 0 <= i <= full && |hashes| == i
        invariant parent == HashAt(tokens, bs, i)
        invariant forall k :: 0 <= k < i ==> hashes[k] == HashAt(tokens, bs, k + 1)
      {
        FullBlocks(|tokens|, bs, i + 1);
        parent := Chain(parent, tokens[i * bs..(i + 1) * bs]);
        hashes := hashes + [parent];
        i := i + 1;
      }
    }

    /** `move_to_end`. */
    method Refresh(h: Hash)
      modifies this
      ensures entries == MoveToEnd(old(entries), h)
    {
      var i := Find(entries, h);
      if i < |entries| {
        entries := entries[..i] + entries[i + 1..] + [entries[i]];
      }
    }

    /** The loop of `lookup`: take blocks while their hashes are present, refreshing each. */
    method TakeMatches(hashes: seq<Hash>) returns (matched: seq<Block>)
      modifies this
      ensures Matched(entries, matched) == Match(old(entries), hashes)
    {
      hide MoveToEnd, Find;
      matched := [];
      assert hashes[0..] == hashes;
      var i := 0;
      while i < |hashes| && Contains(entries, hashes[i])
        invariant 0 <= i <= |hashes|
        invariant var rest := Match(entries, hashes[i..]); Match(old(entries), hashes) == Matched(rest.entries, matched + rest.blocks)
        decreases |hashes| - i
      {
        assert hashes[i..][0] == hashes[i] && hashes[i..][1..] == hashes[i + 1..];
        matched := matched + [entries[Find(entries, hashes[i])].block];
        Refresh(hashes[i]);
        i := i + 1;
      }
      assert i < |hashes| ==> hashes[i..][0] == hashes[i];
      assert matched + [] == matched;
    }

    method Lookup(tokens: seq<Token>) returns (r: Result<(seq<Block>, nat)>)
      requires allocator.Valid()
      modifies this, allocator
      ensures allocator.Valid()
      ensures PrefixOut(allocator.View(), entries, r) == Prefixes.Lookup(old(allocator.View()), old(entries), tokens)
    {
      hide HashAt, Match, Prefixes.BlockHashes;
      var hashes := BlockHashes(tokens);
      var matched := TakeMatches(hashes);
      if matched == [] {
        return Ok(([], 0));
      }
      var shared := allocator.Incref(matched);
      if shared.Err? {
        return Err(shared.error);
      }
      return Ok((matched, |matched| * allocator.blockSize));
    }

    method EvictIfNeeded() returns (r: Result<()>)
      requires allocator.Valid()
      modifies this, allocator
      ensures allocator.Valid()
      ensures PrefixOut(allocator.View(), entries, r) == Evict(old(allocator.View()), old(entries), maxBlocks)
    {
      while |entries| >= maxBlocks && entries != []
        invariant allocator.Valid()
        invariant Evict(allocator.View(), entries, maxBlocks) == Evict(old(allocator.View()), old(entries), maxBlocks)
        decreases |entries|
      {
        var oldest := entries[0];
        entries := entries[1..];
        var freed := allocator.Free([oldest.block]);
        if freed.Err? {
          return Err(freed.error);
        }
      }
      return Ok(());
    }

    method Register(tokens: seq<Token>, blocks: seq<Block>) returns (r: Result<nat>)
      requires allocator.Valid()
      modifies this, allocator
      ensures allocator.Valid()
      ensures PrefixOut(allocator.View(), entries, r) == Prefixes.Register(old(allocator.View()), old(entries), maxBlocks, tokens, blocks)
    {
      hide HashAt, Evict, Find;
      var hashes := BlockHashes(tokens);
      ghost var all := RegisterFrom(allocator.View(), entries, maxBlocks, hashes, blocks, 0);
      var added := 0;
      var i := 0;
      while i < |hashes|
        invariant 0 <= i <= |hashes| && allocator.Valid()
        invariant var rest := RegisterFrom(allocator.View(), entries, maxBlocks, hashes, blocks, i);
          all == match rest.result case Ok(n) => rest.(result := Ok(n + added)) case Err(_) => rest
        decreases |hashes| - i
      {
        if i >= |blocks| || Contains(entries, hashes[i]) {
          i := i + 1;
        } else {
          var room := EvictIfNeeded();
          if room.Err? {
            return Err(room.error);
          }
          if |entries| >= maxBlocks {
            return Ok(added);
          }
          var shared := allocator.Incref([blocks[i]]);
          if shared.Err? {
            return Err(shared.error);
          }
          entries := entries + [Entry(hashes[i], blocks[i])];
          added := added + 1;
          i := i + 1;
        }
      }
      return Ok(added);
    }

    method Clear() returns (r: Result<()>)
      requires allocator.Valid()
      modifies this, allocator
      ensures allocator.Valid()
      ensures PrefixOut(allocator.View(), entries, r) == Prefixes.Clear(old(allocator.View()), old(entries))
    {
      ghost var all := ReleaseAll(allocator.View(), entries);
      assert entries[0..] == entries;
      var i := 0;
      while i < |entries|
        invariant 0 <= i <= |entries| && entries == old(entries) && allocator.Valid()
        invariant ReleaseAll(allocator.View(), entries[i..]) == all
      {
        assert entries[i..][0] == entries[i] && entries[i..][1..] == entries[i + 1..];
        var freed := allocator.Free([entries[i].block]);
        if freed.Err? {
          return Err(freed.error);
        }
        i := i + 1;
      }
      entries := [];
      return Ok(());
    }
  }
}
