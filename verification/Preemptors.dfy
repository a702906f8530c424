/** The preemptor object (edgerag/cache/preemption.py): victims' blocks are copied to host memory and
    released, and copied back into newly allocated ones. */
module Preemptors {
  import opened Common
  import opened Tensors
  import opened Paging
  import opened Requests
  import opened Allocator
  import opened Swaps
  import B = BlockPools
  import P = Pools

  datatype Policy = SwapPolicy | Recompute | Reject

  /** Read one block's row. */
  method ReadRow(pool: array3<KV>, l: nat, b: Block) returns (row: seq<KV>)
    requires l < pool.Length0
    ensures row == Row(B.View(pool)[l], b)
  {
    if 0 <= b < pool.Length1 {
      row := seq(pool.Length2, s requires 0 <= s < pool.Length2 reads pool => pool[l, b, s]);
    } else {
      row := [];
    }
  }

  /** `pool[:, blocks]` in one layer. */
  method ReadRows(pool: array3<KV>, l: nat, blocks: seq<Block>) returns (rows: seq<seq<KV>>)
    requires l < pool.Length0
    ensures rows == Rows(B.View(pool)[l], blocks)
  {
    rows := [];
    while |rows| < |blocks|
      invariant |rows| <= |blocks|
      invariant forall k :: 0 <= k < |rows| ==> rows[k] == Row(B.View(pool)[l], blocks[k])
    {
      var row := ReadRow(pool, l, blocks[|rows|]);
      rows := rows + [row];
    }
  }

  method WriteRow(pool: array3<KV>, l: nat, b: Block, row: seq<KV>)
    requires l < pool.Length0 && 0 <= b < pool.Length1 && |row| == pool.Length2
    modifies pool
    ensures B.View(pool) == old(B.View(pool))[l := old(B.View(pool))[l][b := row]]
  {
    ghost var before := B.View(pool);
    forall s | 0 <= s < pool.Length2 {
      pool[l, b, s] := row[s];
    }
    forall k | 0 <= k < pool.Length0 ensures B.LayerView(pool, k) == if k == l then before[l][b := row] else before[k] {
      var layer := if k == l then before[l][b := row] else before[k];
      forall c | 0 <= c < pool.Length1 ensures B.RowIs(pool, k, c, layer[c]) {
        assert before[k][c] == old(B.RowView(pool, k, c));
      }
      B.LayerIs(pool, k, layer);
    }
  }

  /** The assignment of rows to blocks up to block position `k` still to do: earlier positions win. */
  ghost function SetFrom(layer: Layer, blocks: seq<Block>, rows: seq<seq<KV>>, k: nat): (r: Layer)
    requires Broadcasts(|rows|, |blocks|) && k <= |blocks|
    ensures |r| == |layer|
  {
    seq(|layer|, b requires 0 <= b < |layer| =>
      if b in blocks[k..] then rows[if |rows| == 1 then 0 else k + IndexOf(blocks[k..], b)] else layer[b])
  }

  lemma SetOneMore(layer: Layer, blocks: seq<Block>, rows: seq<seq<KV>>, k: nat)
    requires Broadcasts(|rows|, |blocks|) && k < |blocks| && 0 <= blocks[k] < |layer|
    ensures SetFrom(layer, blocks, rows, k) == SetFrom(layer, blocks, rows, k + 1)[blocks[k] := rows[if |rows| == 1 then 0 else k]]
  {
    assert blocks[k..] == [blocks[k]] + blocks[k + 1..];
    forall b | 0 <= b < |layer| && b != blocks[k] && b in blocks[k..]
      ensures b in blocks[k + 1..] && IndexOf(blocks[k..], b) == 1 + IndexOf(blocks[k + 1..], b)
    {
      IndexSkips(blocks[k], blocks[k + 1..], b);
    }
    assert IndexOf(blocks[k..], blocks[k]) == 0;
    hide IndexOf;
  }

  lemma IndexSkips(first: Block, rest: seq<Block>, b: Block)
    requires b != first && b in [first] + rest
    ensures b in rest && IndexOf([first] + rest, b) == 1 + IndexOf(rest, b)
  {
    assert ([first] + rest)[1..] == rest;
  }

  /** `pool[:, blocks] = rows` in one layer. */
  method WriteRows(pool: array3<KV>, l: nat, blocks: seq<Block>, rows: seq<seq<KV>>)
    requires l < pool.Length0 && Broadcasts(|rows|, |blocks|)
    requires forall b :: b in blocks ==> 0 <= b < pool.Length1
    requires forall k :: 0 <= k < |rows| ==> |rows[k]| == pool.Length2
    modifies pool
    ensures B.View(pool) == old(B.View(pool))[l := SetRows(old(B.View(pool))[l], blocks, rows)]
  {
    ghost var before := B.View(pool);
    var k := |blocks|;
    assert SetFrom(before[l], blocks, rows, k) == before[l];
    while k > 0
      invariant 0 <= k <= |blocks|
      invariant B.View(pool) == before[l := SetFrom(before[l], blocks, rows, k)]
    {
      k := k - 1;
      assert blocks[k] in blocks;
      SetOneMore(before[l], blocks, rows, k);
      WriteRow(pool, l, blocks[k], rows[if |rows| == 1 then 0 else k]);
    }
    assert blocks[0..] == blocks;
    assert SetFrom(before[l], blocks, rows, 0) == SetRows(before[l], blocks, rows);
  }

  class Preemptor {
    const allocator: BlockAllocator
    const pool: array3<KV>
    const heads: nat
    var swapped: map<Id, Record>

    ghost function Arena(): Store
      reads allocator, pool
    {
      Store(allocator.View(), B.View(pool))
    }

    /** Parked rows have the pool's shape. */
    ghost predicate Valid()
      reads this, allocator
    {
      && allocator.Valid() && pool.Length1 == allocator.numBlocks
      && forall id :: id in swapped ==> Shapely(swapped[id])
    }

    ghost predicate Shapely(record: Record) {
      |record.rows| == pool.Length0 && forall l, k :: 0 <= l < |record.rows| && 0 <= k < |record.rows[l]| ==> |record.rows[l][k]| == pool.Length2
    }

    constructor (allocator: BlockAllocator, pool: array3<KV>, heads: nat)
      requires allocator.Valid() && pool.Length1 == allocator.numBlocks
      ensures Valid() && this.allocator == allocator && this.pool == pool && this.heads == heads && swapped == map[]
    {
      this.allocator, this.pool, this.heads := allocator, pool, heads;
      swapped := map[];
    }

    lemma Copied(record: Record, blocks: seq<Block>)
      requires record.rows == RecordOf(B.View(pool), blocks, 0).rows && forall b :: b in blocks ==> 0 <= b < pool.Length1
      ensures Shapely(record)
    {
      forall l, k | 0 <= l < |record.rows| && 0 <= k < |record.rows[l]| ensures |record.rows[l][k]| == pool.Length2 {
        assert blocks[k] in blocks && record.rows[l][k] == B.RowView(pool, l, blocks[k]);
      }
    }

    /** Copy first, then release: freed blocks could be claimed and overwritten mid-copy. */
    method SwapOut(id: Id, blocks: seq<Block>, numTokens: nat) returns (r: Result<Record>)
      requires Valid() && forall b :: b in blocks ==> 0 <= b < pool.Length1
      modifies this, allocator
      ensures Valid()
      ensures Swap(Arena(), r) == Swaps.SwapOut(old(Arena()), blocks, numTokens)
      ensures swapped == old(swapped)[id := RecordOf(old(B.View(pool)), blocks, numTokens)]
    {
      var rows: seq<seq<seq<KV>>> := [];
      while |rows| < pool.Length0
        invariant |rows| <= pool.Length0
        invariant unchanged(this) && unchanged(allocator)
        invariant forall l :: 0 <= l < |rows| ==> rows[l] == Rows(B.View(pool)[l], blocks)
      {
        var layer := ReadRows(pool, |rows|, blocks);
        rows := rows + [layer];
      }
      var record := Record(numTokens, rows);
      assert record == RecordOf(B.View(pool), blocks, numTokens);
      Copied(record, blocks);
      swapped := swapped[id := record];
      var freed := allocator.Free(blocks);
      if freed.Err? {
        return Err(freed.error);
      }
      return Ok(record);
    }

    /** The count is read off the leading axis of the parked keys, which is the KV heads. */
    method SwapIn(id: Id) returns (r: Result<(seq<Block>, nat)>)
      requires Valid() && pool.Length0 > 0
      requires forall b :: b in allocator.free ==> 0 <= b < allocator.numBlocks
      modifies this, allocator, pool
      ensures Valid()
      ensures id !in old(swapped) ==> r == Err(KeyError) && swapped == old(swapped) && Arena() == old(Arena())
      ensures id in old(swapped) ==> Swap(Arena(), r) == Swaps.SwapIn(old(Arena()), old(swapped[id]), heads)
      ensures swapped == if r.Ok? then old(swapped) - {id} else old(swapped)
    {
      if id !in swapped {
        return Err(KeyError);
      }
      var record := swapped[id];
      ghost var s := Arena();
      var taken := allocator.Allocate(heads);
      assert B.View(pool) == s.kv;
      if taken.Err? {
        return Err(taken.error);
      }
      var blocks := taken.value;
      assert blocks == P.Popped(s.pool.free, heads);
      forall k | 0 <= k < |blocks| ensures 0 <= blocks[k] < pool.Length1 {
        assert blocks[k] in s.pool.free;
      }
      var l := 0;
      while l < |record.rows|
        invariant 0 <= l <= |record.rows| == pool.Length0
        invariant Valid() && swapped == old(swapped) && unchanged(this)
        invariant allocator.View() == P.Allocate(s.pool, heads).pool
        invariant SetLayers(B.View(pool), blocks, record.rows, l) == SetLayers(s.kv, blocks, record.rows, 0)
      {
        if !Broadcasts(|record.rows[l]|, |blocks|) {
          return Err(ShapeError);
        }
        WriteRows(pool, l, blocks, record.rows[l]);
        l := l + 1;
      }
      swapped := swapped - {id};
      return Ok((blocks, record.numTokens));
    }

    /** Whatever the policy, the blocks come back; only swapping keeps their contents, and it reports the
        number of KV heads instead of the number of blocks. Swapping needs the pools to be handed over
        (`withPools`); without them it is refused before anything happens. */
    method Preempt(policy: Policy, id: Id, blocks: seq<Block>, numTokens: nat, withPools: bool) returns (r: Result<nat>)
      requires Valid() && forall b :: b in blocks ==> 0 <= b < pool.Length1
      modifies this, allocator
      ensures Valid()
      ensures policy == SwapPolicy && !withPools ==>
        r == Err(ValueError) && allocator.View() == old(allocator.View()) && swapped == old(swapped)
      ensures policy != SwapPolicy || withPools ==>
        var freed := P.Free(old(allocator.View()), blocks);
        && allocator.View() == freed.pool
        && (r.Ok? <==> freed.result.Ok?)
        && (r.Ok? ==> r.value == if policy == SwapPolicy then heads else freed.result.value)
      ensures policy == SwapPolicy && withPools ==> swapped == old(swapped)[id := RecordOf(old(B.View(pool)), blocks, numTokens)]
      ensures policy != SwapPolicy ==> swapped == old(swapped)
    {
      if policy == SwapPolicy {
        if !withPools {
          return Err(ValueError);
        }
        var record := SwapOut(id, blocks, numTokens);
        if record.Err? {
          return Err(record.error);
        }
        return Ok(heads);
      }
      r := allocator.Free(blocks);
    }

    /** Newest first, until what the victims hold covers the need. */
    static method SelectVictims(candidates: seq<(Id, nat)>, needed: int) returns (victims: seq<Id>)
      ensures victims == SelectFrom(candidates, needed, 0)
    {
      victims := [];
      var freed := 0;
      var n := |candidates|;
      assert candidates[..n] == candidates;
      while n > 0 && freed < needed
        invariant 0 <= n <= |candidates|
        invariant victims + SelectFrom(candidates[..n], needed, freed) == SelectFrom(candidates, needed, 0)
      {
        var (id, held) := candidates[n - 1];
        assert candidates[..n][..n - 1] == candidates[..n - 1];
        assert victims + ([id] + SelectFrom(candidates[..n - 1], needed, freed + held)) == (victims + [id]) + SelectFrom(candidates[..n - 1], needed, freed + held);
        victims := victims + [id];
        freed := freed + held;
        n := n - 1;
      }
    }
  }
}
