/** What the once-per-forward bookkeeping of a write costs in blocks: the ones the table lacks, and one
    for each block of the write range that somebody else still refers to. It succeeds exactly when that
    many are free, whoever shares what. */
module WriteCosts {
  import opened Common
  import opened Tensors
  import opened Paging
  import P = Pools

  /** How many of these blocks must be copied before they are written, one after another: those with
      more references than the positions up to and including this one account for. */
  ghost function Splits(held: multiset<Block>, range: seq<Block>): nat {
    if range == [] then 0
    else
      var n := |range| - 1;
      Splits(held, range[..n]) + if held[range[n]] > multiset(range)[range[n]] then 1 else 0
  }

  /** For different blocks those are simply the shared ones. */
  ghost function SharedOnes(held: multiset<Block>, range: seq<Block>): nat {
    if range == [] then 0 else SharedOnes(held, range[..|range| - 1]) + if held[range[|range| - 1]] > 1 then 1 else 0
  }

  lemma {:induction false} SplitsOfDistinct(held: multiset<Block>, range: seq<Block>)
    requires Distinct(range)
    ensures Splits(held, range) == SharedOnes(held, range)
  {
    if range != [] {
      var n := |range| - 1;
      SplitsOfDistinct(held, range[..n]);
      DistinctCount(range, range[n]);
    }
  }

  lemma SplitsPush(held: multiset<Block>, range: seq<Block>, x: Block)
    ensures Splits(held, range + [x]) == Splits(held, range) + if held[x] > multiset(range)[x] + 1 then 1 else 0
  {
    var all := range + [x];
    assert all[..|range|] == range && all[|range|] == x;
    assert multiset(all) == multiset(range) + multiset{x};
  }

  lemma FrontCount(b: Block, rest: seq<Block>, x: Block)
    ensures multiset([b] + rest)[x] == multiset(rest)[x] + if x == b then 1 else 0
  {
    assert multiset([b] + rest) == multiset{b} + multiset(rest);
  }

  lemma FrontLast(held: multiset<Block>, b: Block, init: seq<Block>, x: Block)
    requires multiset([b] + init + [x]) <= held
    ensures multiset([b] + init) <= held
    ensures held[b] > 1 ==> (held[x] > multiset([b] + init)[x] + 1 <==> (held - multiset{b})[x] > multiset(init)[x] + 1)
    ensures held[b] == 1 ==> (held[x] > multiset([b] + init)[x] + 1 <==> held[x] > multiset(init)[x] + 1)
  {
    InitWithin(held, [b] + init, x);
    FrontCount(b, init, x);
    assert multiset([b] + init + [x]) == multiset([b] + init) + multiset{x};
  }

  /** The first block: copied when shared, after which it has one reference less. */
  lemma {:induction false} SplitsFront(held: multiset<Block>, b: Block, rest: seq<Block>)
    requires multiset([b] + rest) <= held
    ensures held[b] > 1 ==> Splits(held, [b] + rest) == 1 + Splits(held - multiset{b}, rest)
    ensures held[b] == 1 ==> Splits(held, [b] + rest) == Splits(held, rest)
    decreases |rest|, 1
  {
    if rest == [] {
      hide Splits;
      SplitsPush(held, [], b);
      assert [b] + rest == [] + [b];
      NoSplits(held, []);
      NoSplits(held - multiset{b}, rest);
    } else {
      var init, x := rest[..|rest| - 1], rest[|rest| - 1];
      assert rest == init + [x] && [b] + rest == [b] + init + [x];
      SplitsFrontPush(held, b, init, x);
    }
  }

  lemma {:induction false} SplitsFrontPush(held: multiset<Block>, b: Block, init: seq<Block>, x: Block)
    requires multiset([b] + init + [x]) <= held
    ensures held[b] > 1 ==> Splits(held, [b] + init + [x]) == 1 + Splits(held - multiset{b}, init + [x])
    ensures held[b] == 1 ==> Splits(held, [b] + init + [x]) == Splits(held, init + [x])
    decreases |init| + 1, 0
  {
    hide Splits;
    FrontLast(held, b, init, x);
    SplitsFront(held, b, init);
    SplitsPush(held, [b] + init, x);
    SplitsPush(held, init, x);
    SplitsPush(held - multiset{b}, init, x);
  }

  lemma InitWithin(held: multiset<Block>, init: seq<Block>, x: Block)
    requires multiset(init + [x]) <= held
    ensures multiset(init) <= held
  {
    assert multiset(init + [x]) == multiset(init) + multiset{x};
  }

  lemma {:induction false} SplitsSame(held: multiset<Block>, held': multiset<Block>, range: seq<Block>)
    requires forall b :: b in range ==> held[b] == held'[b]
    ensures Splits(held, range) == Splits(held', range)
  {
    hide Splits;
    if range == [] {
      NoSplits(held, range);
      NoSplits(held', range);
    } else {
      var init, x := range[..|range| - 1], range[|range| - 1];
      assert range == init + [x] && forall b :: b in init ==> b in range;
      SplitsSame(held, held', init);
      SplitsPush(held, init, x);
      SplitsPush(held', init, x);
    }
  }

  /** Blocks with a single reference cost nothing. */
  lemma {:induction false} SplitsPrivate(held: multiset<Block>, range: seq<Block>, more: seq<Block>)
    requires forall b :: b in more ==> held[b] <= 1
    ensures Splits(held, range + more) == Splits(held, range)
    decreases |more|
  {
    if more == [] {
      assert range + more == range;
    } else {
      var n := |more| - 1;
      var all := range + more;
      assert all[..|all| - 1] == range + more[..n] && all[|all| - 1] == more[n];
      SplitsPrivate(held, range, more[..n]);
      assert more[n] in multiset(all);
    }
  }

  /** Splitting the first shared block of a range: one block less is free, and the rest of the range costs
      one less than the whole. */
  lemma OneSplit(p: P.Pool, t: Table, others: multiset<Block>, k: nat, end: nat)
    requires P.Exact(p, multiset(t.blocks) + others) && k < end <= |t.blocks|
    requires (multiset(t.blocks) + others)[t.blocks[k]] > 1 && p.free != []
    ensures var o := Unshare(p, t, k);
      && o.result.Ok? && o.result.value.Some? && o.table.numTokens == t.numTokens && |o.table.blocks| == |t.blocks|
      && P.Exact(o.pool, multiset(o.table.blocks) + others) && |o.pool.free| + 1 == |p.free|
      && Splits(multiset(t.blocks) + others, t.blocks[k..end]) == 1 + Splits(multiset(o.table.blocks) + others, o.table.blocks[k + 1..end])
      && o.table.blocks[k + 1..end] == t.blocks[k + 1..end]
      && forall x :: x in multiset(t.blocks) + others ==>
           (multiset(o.table.blocks) + others)[x] == (multiset(t.blocks) + others)[x] - if x == t.blocks[k] then 1 else 0
  {
    hide P.Exact, P.CopyOnWrite, Splits;
    var blocks := t.blocks;
    var held, b, rest := multiset(blocks) + others, blocks[k], blocks[k + 1..end];
    assert b in multiset(blocks);
    P.CopyOnWriteExact(p, held, b);
    var new_ := Unshare(p, t, k).table.blocks[k];
    var blocks' := blocks[k := new_];
    UpdateMultiset(blocks, k, new_);
    assert multiset(blocks') + others == held - multiset{b} + multiset{new_};
    RestSame(blocks, others, k, end, b, rest, held, new_, multiset(blocks') + others);
    assert blocks'[k + 1..end] == rest;
  }

  lemma RestSame(blocks: seq<Block>, others: multiset<Block>, k: nat, end: nat, b: Block, rest: seq<Block>, held: multiset<Block>, new_: Block, held': multiset<Block>)
    requires k < end <= |blocks| && b == blocks[k] && rest == blocks[k + 1..end] && held == multiset(blocks) + others
    requires held[b] > 1 && new_ !in held && held' == held - multiset{b} + multiset{new_}
    ensures Splits(held, blocks[k..end]) == 1 + Splits(held', rest)
  {
    hide Splits;
    assert blocks[k..end] == [b] + rest;
    SliceWithin(blocks, k, end, others);
    SplitsFront(held, b, rest);
    forall x | x in rest ensures x != new_ {
      assert x in blocks && x in multiset(blocks);
    }
    SplitsSame(held - multiset{b}, held', rest);
  }

  lemma OneKept(p: P.Pool, t: Table, others: multiset<Block>, k: nat, end: nat)
    requires P.Exact(p, multiset(t.blocks) + others) && k < end <= |t.blocks|
    ensures var held, o := multiset(t.blocks) + others, Unshare(p, t, k);
      && held[t.blocks[k]] >= 1
      && (held[t.blocks[k]] == 1 ==> o == TableOut(p, t, Ok(None)) && Splits(held, t.blocks[k..end]) == Splits(held, t.blocks[k + 1..end]))
      && (held[t.blocks[k]] > 1 && p.free == [] ==> o.result == Err(OutOfBlocks) && o.table == t && Splits(held, t.blocks[k..end]) > 0)
  {
    hide P.Exact, P.CopyOnWrite, Splits;
    var held, b, rest := multiset(t.blocks) + others, t.blocks[k], t.blocks[k + 1..end];
    assert b in multiset(t.blocks);
    P.CopyOnWriteExact(p, held, b);
    assert t.blocks[k..end] == [b] + rest;
    SliceWithin(t.blocks, k, end, others);
    SplitsFront(held, b, rest);
  }

  /** The copy-on-write loop, from logical block `k` on: it copies exactly so many blocks, and runs out
      exactly when fewer are free. */
  lemma {:induction false} UnshareRangeExact(s: Store, c: Cache, others: multiset<Block>, k: nat, last: int)
    requires P.Exact(s.pool, multiset(c.table.blocks) + others) && k <= last + 1 <= |c.table.blocks|
    ensures var splits := Splits(multiset(c.table.blocks) + others, c.table.blocks[k..last + 1]);
      var o := UnshareRange(s, c, k, last);
      && o.cache.table.numTokens == c.table.numTokens
      && if splits <= |s.pool.free| then o.result == Ok(()) && |o.store.pool.free| + splits == |s.pool.free|
         else o.result == Err(OutOfBlocks)
    decreases last + 1 - k
  {
    hide P.Exact, Unshare, Splits, CopyBlock;
    if k > last {
      NoSplits(multiset(c.table.blocks) + others, c.table.blocks[k..last + 1]);
    } else {
      OneKept(s.pool, c.table, others, k, last + 1);
      if (multiset(c.table.blocks) + others)[c.table.blocks[k]] == 1 {
        UnshareRangeExact(s, c, others, k + 1, last);
      } else if s.pool.free != [] {
        OneSplit(s.pool, c.table, others, k, last + 1);
        var o := Unshare(s.pool, c.table, k);
        var (old_, new_) := o.result.value.value;
        UnshareRangeExact(Store(o.pool, CopyBlock(s.kv, old_, new_)), c.(table := o.table), others, k + 1, last);
      }
    }
  }

  /** Of every block with references beyond `range`, those of `range` were given up. */
  ghost predicate GivenUp(held: multiset<Block>, range: seq<Block>, held': multiset<Block>) {
    forall b :: held[b] > multiset(range)[b] ==> held'[b] == held[b] - multiset(range)[b]
  }

  lemma GivenUpNone(held: multiset<Block>)
    ensures GivenUp(held, [], held)
  {
  }

  lemma GivenUpKeep(held: multiset<Block>, b: Block, rest: seq<Block>, held': multiset<Block>)
    requires held[b] == 1 && GivenUp(held, rest, held')
    ensures GivenUp(held, [b] + rest, held')
  {
    forall x | held[x] > multiset([b] + rest)[x] ensures held'[x] == held[x] - multiset([b] + rest)[x] {
      FrontCount(b, rest, x);
    }
  }

  lemma GivenUpSplit(held: multiset<Block>, b: Block, held1: multiset<Block>, rest: seq<Block>, held': multiset<Block>)
    requires GivenUp(held1, rest, held')
    requires forall x :: x in held ==> held1[x] == held[x] - if x == b then 1 else 0
    ensures GivenUp(held, [b] + rest, held')
  {
    forall x | held[x] > multiset([b] + rest)[x] ensures held'[x] == held[x] - multiset([b] + rest)[x] {
      FrontCount(b, rest, x);
      assert x in held;
    }
  }

  /** What the loop does to the counts: a block with references beyond those of the range is given up at
      every position of it. */
  lemma {:induction false} UnshareRangeCounts(s: Store, c: Cache, others: multiset<Block>, k: nat, last: int)
    requires P.Exact(s.pool, multiset(c.table.blocks) + others) && k <= last + 1 <= |c.table.blocks|
    requires UnshareRange(s, c, k, last).result.Ok?
    ensures GivenUp(multiset(c.table.blocks) + others, c.table.blocks[k..last + 1], multiset(UnshareRange(s, c, k, last).cache.table.blocks) + others)
    decreases last + 1 - k
  {
    hide P.Exact, Unshare, Splits, CopyBlock, GivenUp;
    var held := multiset(c.table.blocks) + others;
    if k > last {
      assert c.table.blocks[k..last + 1] == [];
      GivenUpNone(held);
    } else {
      OneKept(s.pool, c.table, others, k, last + 1);
      var b, rest := c.table.blocks[k], c.table.blocks[k + 1..last + 1];
      assert c.table.blocks[k..last + 1] == [b] + rest;
      if held[b] == 1 {
        UnshareRangeCounts(s, c, others, k + 1, last);
        GivenUpKeep(held, b, rest, multiset(UnshareRange(s, c, k, last).cache.table.blocks) + others);
      } else {
        OneSplit(s.pool, c.table, others, k, last + 1);
        var o := Unshare(s.pool, c.table, k);
        var (old_, new_) := o.result.value.value;
        var s1, c1 := Store(o.pool, CopyBlock(s.kv, old_, new_)), c.(table := o.table);
        UnshareRangeCounts(s1, c1, others, k + 1, last);
        GivenUpSplit(held, b, multiset(o.table.blocks) + others, rest, multiset(UnshareRange(s1, c1, k + 1, last).cache.table.blocks) + others);
      }
    }
  }

  lemma NoSplits(held: multiset<Block>, range: seq<Block>)
    requires range == []
    ensures Splits(held, range) == 0
  {
  }

  lemma SliceWithin(blocks: seq<Block>, k: nat, end: nat, others: multiset<Block>)
    requires k <= end <= |blocks|
    ensures multiset(blocks[k..end]) <= multiset(blocks) + others
  {
    assert blocks == blocks[..k] + blocks[k..end] + blocks[end..];
    assert multiset(blocks) == multiset(blocks[..k]) + multiset(blocks[k..end]) + multiset(blocks[end..]);
  }

  // ------------------------------------------------------------------------- the bookkeeping

  /** Blocks the table lacks for `n` more positions. */
  ghost function Missing(t: Table, bs: nat, n: nat): nat
    requires bs > 0
  {
    Max(0, CeilDiv(t.numTokens + n, bs) - |t.blocks|)
  }

  /** The blocks the table already has in the range the next `n` positions are written to. */
  ghost function RangeBlocks(t: Table, bs: nat, n: nat): seq<Block>
    requires bs > 0
  {
    var first, end := Div(t.numTokens, bs), Min(Div(t.numTokens + n - 1, bs) + 1, |t.blocks|);
    if first <= end then t.blocks[first..end] else []
  }

  lemma AppendExact(p: P.Pool, t: Table, others: multiset<Block>, n: nat)
    requires P.Exact(p, multiset(t.blocks) + others) && p.blockSize > 0
    ensures var o := Append(p, t, n);
      var missing := Missing(t, p.blockSize, n);
      if missing > |p.free| then o == TableOut(p, t, Err(OutOfBlocks))
      else
        && o.result.Ok? && t.blocks <= o.table.blocks
        && o.table == Table(o.table.blocks, t.numTokens + n) && |o.table.blocks| == |t.blocks| + missing
        && |o.pool.free| + missing == |p.free| && o.pool.blockSize == p.blockSize
        && P.Exact(o.pool, multiset(o.table.blocks) + others)
        && (forall b :: b in multiset(t.blocks) + others ==> (multiset(o.table.blocks) + others)[b] == (multiset(t.blocks) + others)[b])
        && (forall b :: b in o.table.blocks[|t.blocks|..] ==> b !in multiset(t.blocks) + others && (multiset(o.table.blocks) + others)[b] == 1)
  {
    hide P.Exact, P.Allocate, CeilDiv;
    var missing := Missing(t, p.blockSize, n);
    if missing > 0 {
      P.AllocateExact(p, multiset(t.blocks) + others, missing);
      if missing <= |p.free| {
        var taken := P.Allocate(p, missing).result.value;
        assert (t.blocks + taken)[|t.blocks|..] == taken;
        Taken(t.blocks, taken, others);
      }
    }
  }

  lemma Taken(blocks: seq<Block>, taken: seq<Block>, others: multiset<Block>)
    requires Distinct(taken) && forall b :: b in taken ==> b !in multiset(blocks) + others
    ensures multiset(blocks + taken) + others == multiset(blocks) + others + multiset(taken)
    ensures forall b :: b in multiset(blocks) + others ==> (multiset(blocks + taken) + others)[b] == (multiset(blocks) + others)[b]
    ensures forall b :: b in taken ==> (multiset(blocks + taken) + others)[b] == 1
  {
    forall b ensures multiset(taken)[b] == (if b in taken then 1 else 0) {
      DistinctCount(taken, b);
    }
  }

  /** The range the loop walks is the blocks that were there, then new ones. */
  lemma RangeIs(t: Table, t': Table, bs: nat, n: nat) returns (more: seq<Block>)
    requires bs > 0 && t.numTokens <= |t.blocks| * bs && t.numTokens + n <= |t'.blocks| * bs
    requires t.blocks <= t'.blocks
    ensures var first, last := Div(t.numTokens, bs), Div(t.numTokens + n - 1, bs);
      0 <= first <= last + 1 <= |t'.blocks| && t'.blocks[first..last + 1] == RangeBlocks(t, bs, n) + more
    ensures forall b :: b in more ==> b in t'.blocks[|t.blocks|..]
  {
    var first, last := Div(t.numTokens, bs), Div(t.numTokens + n - 1, bs);
    RangeBounds(t.numTokens, n, bs, |t.blocks|, |t'.blocks|);
    more := SplitAt(t.blocks, t'.blocks, first, last + 1);
  }

  lemma SplitAt(blocks: seq<Block>, blocks': seq<Block>, first: nat, end: nat) returns (more: seq<Block>)
    requires blocks <= blocks' && first <= end <= |blocks'| && first <= |blocks|
    ensures first <= Min(end, |blocks|) && blocks'[first..end] == blocks[first..Min(end, |blocks|)] + more
    ensures forall b :: b in more ==> b in blocks'[|blocks|..]
  {
    var mid := Min(end, |blocks|);
    more := blocks'[mid..end];
    assert blocks'[first..end] == blocks'[first..mid] + more;
    assert blocks'[first..mid] == blocks[first..mid];
    forall b | b in more ensures b in blocks'[|blocks|..] {
      var i :| 0 <= i < |more| && more[i] == b;
      assert blocks'[|blocks|..][mid + i - |blocks|] == b;
    }
  }

  lemma RangeSplits(t: Table, t': Table, held: multiset<Block>, bs: nat, n: nat)
    requires bs > 0 && t.numTokens <= |t.blocks| * bs && t.numTokens + n <= |t'.blocks| * bs
    requires t.blocks <= t'.blocks && forall b :: b in t'.blocks[|t.blocks|..] ==> held[b] == 1
    ensures var first, last := Div(t.numTokens, bs), Div(t.numTokens + n - 1, bs);
      && 0 <= first <= last + 1 <= |t'.blocks|
      && Splits(held, t'.blocks[first..last + 1]) == Splits(held, RangeBlocks(t, bs, n))
  {
    hide Splits, RangeBlocks, Div;
    var more := RangeIs(t, t', bs, n);
    SplitsPrivate(held, RangeBlocks(t, bs, n), more);
  }

  lemma RangeBounds(start: nat, n: nat, bs: nat, had: nat, has: nat)
    requires bs > 0 && start <= had * bs && start + n <= has * bs && had <= has
    ensures 0 <= start / bs <= (start + n - 1) / bs + 1 <= has && start / bs <= had
  {
    var first, last := start / bs, (start + n - 1) / bs;
    DivBounds(start, bs);
    DivBounds(start + n - 1, bs);
    OneMore(had, bs);
    OneMore(last + 1, bs);
    Below(first, start, bs, had + 1);
    Below(first, start, bs, last + 2);
    Below(last, start + n - 1, bs, has);
  }

  lemma OneMore(k: int, bs: nat)
    ensures (k + 1) * bs == k * bs + bs
  {
  }

  lemma Below(q: int, a: int, bs: nat, k: int)
    requires q * bs <= a < k * bs
    ensures q < k
  {
    if q >= k {
      MulLe(k, q, bs);
    }
  }

  /** Exactly when the bookkeeping fails, and what it leaves: when the missing blocks alone are too many,
      everything but the pending count is as it was; when only the copies are, the length has already
      advanced over positions that were never written. */
  lemma BeginExact(s: Store, c: Cache, others: multiset<Block>, n: nat)
    requires s.pool.blockSize > 0 && P.Exact(s.pool, multiset(c.table.blocks) + others)
    requires c.table.numTokens <= |c.table.blocks| * s.pool.blockSize
    ensures var missing := Missing(c.table, s.pool.blockSize, n);
      var splits := Splits(multiset(c.table.blocks) + others, RangeBlocks(c.table, s.pool.blockSize, n));
      var o := Begin(s, c, n);
      && (o.result.Ok? <==> missing + splits <= |s.pool.free|)
      && (o.result.Ok? ==> |o.store.pool.free| + missing + splits == |s.pool.free|)
      && (o.result.Err? ==> o.result.error == OutOfBlocks)
      && o.cache.table.numTokens == c.table.numTokens + (if missing <= |s.pool.free| then n else 0)
      && (missing > |s.pool.free| ==> o.store == s && o.cache == c.(pending := n))
  {
    hide P.Exact, Append, UnshareRange, Splits, RangeBlocks;
    var bs, t := s.pool.blockSize, c.table;
    AppendExact(s.pool, t, others, n);
    var o := Append(s.pool, t, n);
    var missing := Missing(t, bs, n);
    if missing <= |s.pool.free| {
      var s1, c1 := s.(pool := o.pool), c.(pending := n, table := o.table);
      var held, held' := multiset(t.blocks) + others, multiset(o.table.blocks) + others;
      EnoughBlocks(t, bs, n, |o.table.blocks|);
      RangeSplits(t, o.table, held', bs, n);
      forall b | b in RangeBlocks(t, bs, n) ensures held[b] == held'[b] {
        RangeWithin(t, bs, n, b);
        assert b in multiset(t.blocks);
      }
      SplitsSame(held, held', RangeBlocks(t, bs, n));
      if o.table.blocks == [] {
        NoSplits(held', o.table.blocks[Div(t.numTokens, bs)..Div(t.numTokens + n - 1, bs) + 1]);
      } else {
        UnshareRangeExact(s1, c1, others, Div(t.numTokens, bs), Div(t.numTokens + n - 1, bs));
      }
    } else {
      assert s.(pool := s.pool) == s;
    }
  }

  lemma EnoughBlocks(t: Table, bs: nat, n: nat, has: nat)
    requires bs > 0 && has == |t.blocks| + Missing(t, bs, n)
    ensures t.numTokens + n <= has * bs
  {
    CeilDivAdjunction(t.numTokens + n, bs, has);
  }

  lemma RangeWithin(t: Table, bs: nat, n: nat, b: Block)
    requires bs > 0 && b in RangeBlocks(t, bs, n)
    ensures b in t.blocks
  {
  }

  /** Counts after the bookkeeping: the writer has given up the range, wherever others still refer to it. */
  lemma BeginCounts(s: Store, c: Cache, others: multiset<Block>, n: nat)
    requires s.pool.blockSize > 0 && P.Exact(s.pool, multiset(c.table.blocks) + others)
    requires c.table.numTokens <= |c.table.blocks| * s.pool.blockSize && Begin(s, c, n).result.Ok?
    ensures GivenUp(multiset(c.table.blocks) + others, RangeBlocks(c.table, s.pool.blockSize, n), multiset(Begin(s, c, n).cache.table.blocks) + others)
  {
    hide P.Exact, Append, UnshareRange, RangeBlocks, Missing, Splits, GivenUp, Div;
    var bs, t := s.pool.blockSize, c.table;
    AppendExact(s.pool, t, others, n);
    var o := Append(s.pool, t, n);
    assert o.result.Ok?;
    var s1, c1 := s.(pool := o.pool), c.(pending := n, table := o.table);
    EnoughBlocks(t, bs, n, |o.table.blocks|);
    var more := RangeIs(t, o.table, bs, n);
    var held, held1 := multiset(t.blocks) + others, multiset(o.table.blocks) + others;
    if o.table.blocks != [] {
      UnshareRangeCounts(s1, c1, others, Div(t.numTokens, bs), Div(t.numTokens + n - 1, bs));
      GivenUpOld(held, held1, RangeBlocks(t, bs, n), more, multiset(Begin(s, c, n).cache.table.blocks) + others);
    } else {
      GivenUpNone(held1);
      NoRange(t, bs, n);
      GivenUpOld(held, held1, [], [], held1);
    }
  }

  lemma NoRange(t: Table, bs: nat, n: nat)
    requires bs > 0 && t.blocks == []
    ensures RangeBlocks(t, bs, n) == []
  {
  }

  /** New blocks, in the counts and in the range, change nothing for those that were there. */
  lemma GivenUpOld(held: multiset<Block>, held1: multiset<Block>, range: seq<Block>, more: seq<Block>, held': multiset<Block>)
    requires GivenUp(held1, range + more, held')
    requires (forall b :: b in held ==> held1[b] == held[b]) && forall b :: b in more ==> b !in held
    ensures GivenUp(held, range, held')
  {
    assert multiset(range + more) == multiset(range) + multiset(more);
    forall x | held[x] > multiset(range)[x] ensures held'[x] == held[x] - multiset(range)[x] {
      assert x in held;
      MultisetIn(more, x);
    }
  }

  // ------------------------------------------------------------------------------ several writers

  lemma {:induction false} SplitsGrow(held: multiset<Block>, range: seq<Block>, more: seq<Block>)
    ensures Splits(held, range) <= Splits(held, range + more)
    decreases |more|
  {
    hide Splits;
    if more == [] {
      assert range + more == range;
    } else {
      var init, x := more[..|more| - 1], more[|more| - 1];
      assert range + more == (range + init) + [x];
      SplitsGrow(held, range, init);
      SplitsPush(held, range + init, x);
    }
  }

  /** One range after another costs what both cost together, counted at the start. */
  lemma {:induction false} SplitsJoin(held: multiset<Block>, range: seq<Block>, held': multiset<Block>, more: seq<Block>)
    requires multiset(range) + multiset(more) <= held
    requires GivenUp(held, range, held')
    ensures Splits(held, range + more) == Splits(held, range) + Splits(held', more)
    decreases |more|
  {
    hide Splits;
    if more == [] {
      assert range + more == range;
      NoSplits(held', more);
    } else {
      var init, x := more[..|more| - 1], more[|more| - 1];
      assert more == init + [x] && range + more == (range + init) + [x];
      assert multiset(more) == multiset(init) + multiset{x};
      SplitsJoin(held, range, held', init);
      SplitsPush(held, range + init, x);
      SplitsPush(held', init, x);
      assert multiset(range + init) == multiset(range) + multiset(init);
    }
  }
}
