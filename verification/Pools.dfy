/** The physical block pool (edgerag/cache/allocator.py): a LIFO free list plus reference counts.

    `Pool` is the allocator's state as a value and the functions over it say what each operation
    does, errors included; Allocator.dfy holds the object with its loops, proved to do just that.
    `Exact` ties the reference counts to the multiset of references that holders really keep. */
module Pools {
  import opened Common

  datatype Pool = Pool(blockSize: nat, refcount: seq<nat>, free: seq<Block>)

  /** State after an operation, and what it returned or raised. */
  datatype Outcome<T> = Outcome(pool: Pool, result: Result<T>)

  function Init(numBlocks: nat, blockSize: nat): Pool {
    Pool(blockSize, seq(numBlocks, i => 0), seq(numBlocks, i => numBlocks - 1 - i))
  }

  predicate InRange(p: Pool, b: Block) {
    0 <= b < |p.refcount|
  }

  /** `self._free.pop()`, `n` times: the stack's top elements, last one first. */
  function Popped(free: seq<Block>, n: nat): (s: seq<Block>)
    requires n <= |free|
    ensures |s| == n
    ensures forall k :: 0 <= k < n ==> s[k] == free[|free| - 1 - k]
  {
    seq(n, k requires 0 <= k < n => free[|free| - 1 - k])
  }

  function SetCounts(refcount: seq<nat>, blocks: seq<Block>, v: nat): (r: seq<nat>)
    ensures |r| == |refcount|
    ensures forall b :: 0 <= b < |r| ==> r[b] == if b in blocks then v else refcount[b]
  {
    seq(|refcount|, b requires 0 <= b < |refcount| => if b in blocks then v else refcount[b])
  }

  function Allocate(p: Pool, n: int): Outcome<seq<Block>> {
    if n < 0 then Outcome(p, Err(ValueError))
    else if n > |p.free| then Outcome(p, Err(OutOfBlocks))
    else
      var blocks := Popped(p.free, n);
      Outcome(p.(free := p.free[..|p.free| - n], refcount := SetCounts(p.refcount, blocks, 1)), Ok(blocks))
  }

  /** One turn of the loop in `free`: the block loses a reference and returns to the stack at zero. */
  function DropOne(p: Pool, b: Block): Pool
    requires InRange(p, b) && p.refcount[b] > 0
  {
    var q := p.(refcount := p.refcount[b := p.refcount[b] - 1]);
    if p.refcount[b] == 1 then q.(free := q.free + [b]) else q
  }

  /** An error part way leaves the blocks before it freed, as the Python loop does. */
  function Free(p: Pool, blocks: seq<Block>): Outcome<nat>
    decreases |blocks|
  {
    if blocks == [] then Outcome(p, Ok(0))
    else if !InRange(p, blocks[0]) then Outcome(p, Err(AllocatorMisuse))
    else if p.refcount[blocks[0]] == 0 then Outcome(p, Err(DoubleFree))
    else
      var rest := Free(DropOne(p, blocks[0]), blocks[1..]);
      match rest.result
      case Ok(n) => Outcome(rest.pool, Ok(n + if p.refcount[blocks[0]] == 1 then 1 else 0))
      case Err(e) => rest
  }

  function AddCounts(refcount: seq<nat>, blocks: seq<Block>): (r: seq<nat>)
    ensures |r| == |refcount|
    ensures forall b :: 0 <= b < |r| ==> r[b] == refcount[b] + multiset(blocks)[b]
  {
    seq(|refcount|, b requires 0 <= b < |refcount| => refcount[b] + multiset(blocks)[b])
  }

  predicate Increfable(p: Pool, blocks: seq<Block>) {
    forall i :: 0 <= i < |blocks| ==> InRange(p, blocks[i]) && p.refcount[blocks[i]] > 0
  }

  function Incref(p: Pool, blocks: seq<Block>): Outcome<()> {
    if Increfable(p, blocks) then Outcome(p.(refcount := AddCounts(p.refcount, blocks)), Ok(()))
    else Outcome(p, Err(AllocatorMisuse))
  }

  function CopyOnWrite(p: Pool, b: Block): Outcome<Block> {
    if !InRange(p, b) || p.refcount[b] == 0 then Outcome(p, Err(AllocatorMisuse))
    else if p.refcount[b] == 1 then Outcome(p, Ok(b))
    else
      var o := Allocate(p, 1);
      match o.result
      case Err(e) => Outcome(o.pool, Err(e))
      case Ok(taken) => Outcome(o.pool.(refcount := o.pool.refcount[b := o.pool.refcount[b] - 1]), Ok(taken[0]))
  }

  // ------------------------------------------------------------------ exact reference counting

  /** `held` is every reference anybody keeps: each count is exactly the block's multiplicity in it,
      and the free list is, without repetition, exactly the blocks nobody holds. */
  ghost predicate Exact(p: Pool, held: multiset<Block>) {
    && p.blockSize > 0
    && (forall b :: b in held ==> InRange(p, b))
    && (forall b :: 0 <= b < |p.refcount| ==> p.refcount[b] == held[b])
    && Distinct(p.free)
    && (forall b :: b in p.free <==> 0 <= b < |p.refcount| && p.refcount[b] == 0)
  }

  lemma InitExact(numBlocks: nat, blockSize: nat)
    requires blockSize > 0
    ensures Exact(Init(numBlocks, blockSize), multiset{})
    ensures |Init(numBlocks, blockSize).free| == numBlocks
  {
    var p := Init(numBlocks, blockSize);
    forall b | 0 <= b < numBlocks ensures b in p.free {
      assert p.free[numBlocks - 1 - b] == b;
    }
  }

  /** Allocation succeeds exactly when enough blocks are free; the new blocks were held by nobody,
      are pairwise different, and are now held once each. */
  lemma AllocateExact(p: Pool, held: multiset<Block>, n: nat)
    requires Exact(p, held)
    ensures var o := Allocate(p, n);
      && (o.result.Ok? <==> n <= |p.free|)
      && (o.result.Err? ==> o == Outcome(p, Err(OutOfBlocks)))
      && (o.result.Ok? ==>
            && |o.result.value| == n
            && Distinct(o.result.value)
            && (forall b :: b in o.result.value ==> b !in held && InRange(p, b))
            && Exact(o.pool, held + multiset(o.result.value))
            && |o.pool.refcount| == |p.refcount| && o.pool.blockSize == p.blockSize
            && |o.pool.free| == |p.free| - n)
  {
    if n <= |p.free| {
      var o := Allocate(p, n);
      var taken := o.result.value;
      PoppedFacts(p.free, n);
      forall b ensures multiset(taken)[b] == (if b in taken then 1 else 0) {
        DistinctCount(taken, b);
      }
    }
  }

  /** Popping splits the stack: each block on it is taken or left, and none twice. */
  lemma PoppedFacts(free: seq<Block>, n: nat)
    requires Distinct(free) && n <= |free|
    ensures Distinct(Popped(free, n)) && Distinct(free[..|free| - n])
    ensures forall b :: b in Popped(free, n) ==> b in free
    ensures forall b :: b in free[..|free| - n] <==> b in free && b !in Popped(free, n)
  {
    var taken, rest := Popped(free, n), free[..|free| - n];
    forall b | b in free ensures b in rest <==> b !in taken {
      var i :| 0 <= i < |free| && free[i] == b;
      if i < |rest| {
        assert rest[i] == b;
      } else {
        assert taken[|free| - 1 - i] == b;
      }
    }
  }

  /** A new pool hands its blocks out from block 0 upward. */
  lemma FirstBlocks(numBlocks: nat, blockSize: nat, n: nat)
    requires n <= numBlocks
    ensures var o := Allocate(Init(numBlocks, blockSize), n);
      o.result.Ok? && |o.result.value| == n && forall k :: 0 <= k < n ==> o.result.value[k] == k
  {
  }

  lemma {:induction false} FreePushes(p: Pool, blocks: seq<Block>)
    requires Distinct(blocks) && forall b :: b in blocks ==> InRange(p, b) && p.refcount[b] == 1
    ensures Free(p, blocks) == Outcome(Pool(p.blockSize, SetCounts(p.refcount, blocks, 0), p.free + blocks), Ok(|blocks|))
    decreases |blocks|
  {
    if blocks == [] {
      assert p.free + blocks == p.free && SetCounts(p.refcount, blocks, 0) == p.refcount;
    } else {
      var b, rest := blocks[0], blocks[1..];
      assert b in blocks && b !in rest && forall x :: x in blocks <==> x == b || x in rest;
      FreePushes(DropOne(p, b), rest);
      assert p.free + [b] + rest == p.free + blocks;
      assert SetCounts(DropOne(p, b).refcount, rest, 0) == SetCounts(p.refcount, blocks, 0);
    }
  }

  /** The free list is a stack: blocks given back are the next ones taken, last one first, and taking them
      again restores the pool. */
  lemma LastFreedFirst(p: Pool, blocks: seq<Block>)
    requires Distinct(blocks) && forall b :: b in blocks ==> InRange(p, b) && p.refcount[b] == 1
    ensures Free(p, blocks).result == Ok(|blocks|)
    ensures var o := Allocate(Free(p, blocks).pool, |blocks|);
      && o.pool == p && o.result.Ok? && |o.result.value| == |blocks|
      && forall k :: 0 <= k < |blocks| ==> o.result.value[k] == blocks[|blocks| - 1 - k]
  {
    FreePushes(p, blocks);
    var q := Free(p, blocks).pool;
    var taken := Popped(q.free, |blocks|);
    assert q.free[..|q.free| - |blocks|] == p.free;
    forall b | b in blocks ensures b in taken {
      var i :| 0 <= i < |blocks| && blocks[i] == b;
      assert taken[|blocks| - 1 - i] == b;
    }
    assert SetCounts(q.refcount, taken, 1) == p.refcount;
  }

  lemma DropOneExact(p: Pool, held: multiset<Block>, b: Block)
    requires Exact(p, held) && b in held
    ensures InRange(p, b) && p.refcount[b] > 0
    ensures Exact(DropOne(p, b), held - multiset{b})
    ensures |DropOne(p, b).refcount| == |p.refcount| && DropOne(p, b).blockSize == p.blockSize
  {
    var q := DropOne(p, b);
    forall x ensures x in q.free <==> 0 <= x < |q.refcount| && q.refcount[x] == 0 {
      if p.refcount[b] == 1 {
        assert q.free == p.free + [b];
      }
    }
  }

  /** Freeing gives back the references it names and reports how many blocks came back; with exact
      counts it raises exactly when asked to drop a reference that nobody holds. */
  lemma {:induction false} FreeExact(p: Pool, held: multiset<Block>, blocks: seq<Block>)
    requires Exact(p, held)
    ensures Free(p, blocks).result.Ok? <==> multiset(blocks) <= held
    ensures var o := Free(p, blocks);
      o.result.Ok? ==>
        && Exact(o.pool, held - multiset(blocks))
        && |o.pool.free| == |p.free| + o.result.value
        && |o.pool.refcount| == |p.refcount| && o.pool.blockSize == p.blockSize
    decreases |blocks|
  {
    if blocks != [] {
      var b := blocks[0];
      assert blocks == [b] + blocks[1..];
      assert multiset(blocks) == multiset{b} + multiset(blocks[1..]);
      if b in held {
        DropOneExact(p, held, b);
        FreeExact(DropOne(p, b), held - multiset{b}, blocks[1..]);
        assert multiset(blocks) <= held <==> multiset(blocks[1..]) <= held - multiset{b} by {
          if multiset(blocks[1..]) <= held - multiset{b} {
            assert multiset{b} <= held;
          }
        }
        assert held - multiset(blocks) == held - multiset{b} - multiset(blocks[1..]);
      } else {
        assert multiset(blocks)[b] > 0;
      }
    }
  }

  /** Sharing is accepted exactly for blocks somebody already holds. */
  lemma IncrefExact(p: Pool, held: multiset<Block>, blocks: seq<Block>)
    requires Exact(p, held)
    ensures Incref(p, blocks).result.Ok? <==> forall b :: b in blocks ==> b in held
    ensures Incref(p, blocks).result.Ok? ==> Exact(Incref(p, blocks).pool, held + multiset(blocks))
    ensures Incref(p, blocks).pool.free == p.free
  {
    if Incref(p, blocks).result.Ok? {
      var q := Incref(p, blocks).pool;
      forall b | b in blocks ensures b in held {
        var i :| 0 <= i < |blocks| && blocks[i] == b;
      }
      forall b | 0 <= b < |q.refcount| ensures q.refcount[b] == 0 <==> p.refcount[b] == 0 {
        MultisetIn(blocks, b);
      }
    } else if forall b :: b in blocks ==> b in held {
      var i :| 0 <= i < |blocks| && !(InRange(p, blocks[i]) && p.refcount[blocks[i]] > 0);
      assert blocks[i] in blocks;
    }
  }

  lemma IncrefShape(p: Pool, blocks: seq<Block>)
    ensures var q := Incref(p, blocks).pool;
      |q.refcount| == |p.refcount| && q.blockSize == p.blockSize && q.free == p.free
  {
  }

  /** Copy-on-write moves one reference from a shared block to a block nobody held, is the identity
      on a private block, and fails exactly when the block is shared and the pool is empty. */
  lemma CopyOnWriteExact(p: Pool, held: multiset<Block>, b: Block)
    requires Exact(p, held) && b in held
    ensures var o := CopyOnWrite(p, b);
      && (o.result.Err? <==> held[b] > 1 && p.free == [])
      && (o.result.Err? ==> o == Outcome(p, Err(OutOfBlocks)))
      && (held[b] == 1 ==> o == Outcome(p, Ok(b)))
      && (held[b] > 1 && o.result.Ok? ==>
            && o.result.value !in held && InRange(p, o.result.value)
            && Exact(o.pool, held - multiset{b} + multiset{o.result.value})
            && |o.pool.refcount| == |p.refcount| && o.pool.blockSize == p.blockSize
            && |o.pool.free| + 1 == |p.free|)
  {
    if held[b] > 1 && p.free != [] {
      AllocateExact(p, held, 1);
      var a := Allocate(p, 1);
      var taken := a.result.value;
      assert taken == [taken[0]];
      assert multiset(taken) == multiset{taken[0]};
      var q := CopyOnWrite(p, b).pool;
      assert held - multiset{b} + multiset{taken[0]} == held + multiset(taken) - multiset{b};
      forall x | 0 <= x < |q.refcount| ensures q.refcount[x] == (held + multiset(taken) - multiset{b})[x] {
      }
    }
  }

  /** What the counts may say is fixed by the holders: an exact pool passes every structural check
      of `check_invariants`. */
  lemma ExactPassesChecks(p: Pool, held: multiset<Block>)
    requires Exact(p, held)
    ensures Distinct(p.free)
    ensures forall b :: 0 <= b < |p.refcount| ==> (b in p.free <==> p.refcount[b] == 0)
    ensures |p.free| <= |p.refcount|
    ensures held == multiset{} ==> |p.free| == |p.refcount|
  {
    DistinctBelow(p.free, |p.refcount|);
  }

  /** Without sharing, every block is either free or held once: used plus free is the pool. */
  lemma {:induction false} Conservation(p: Pool, held: multiset<Block>)
    requires Exact(p, held)
    requires forall b :: held[b] <= 1
    ensures |held| + |p.free| == |p.refcount|
    decreases |held|
  {
    if b :| b in held {
      DropOneExact(p, held, b);
      Conservation(DropOne(p, b), held - multiset{b});
    } else {
      assert forall b :: held[b] == 0;
      ExactPassesChecks(p, held);
    }
  }
}
