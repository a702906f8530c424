/** Parking a sequence in host memory and taking it back (edgerag/cache/preemption.py), as functions
    on values. `record.keys[0].shape` is `(kv_heads, n_blocks, block_size, head_dim)`. */
module Swaps {
  import opened Common
  import opened Tensors
  import opened Paging
  import opened Requests
  import P = Pools

  /** The copied rows, `[layer][block][slot]`. */
  datatype Record = Record(numTokens: nat, rows: seq<seq<seq<KV>>>)

  datatype Swap<T> = Swap(store: Store, result: Result<T>)

  /** The host copy of a sequence's blocks. */
  function RecordOf(kv: seq<Layer>, blocks: seq<Block>, numTokens: nat): Record {
    Record(numTokens, seq(|kv|, l requires 0 <= l < |kv| => Rows(kv[l], blocks)))
  }

  function SwapOut(s: Store, blocks: seq<Block>, numTokens: nat): Swap<Record> {
    var o := P.Free(s.pool, blocks);
    match o.result
    case Ok(_) => Swap(s.(pool := o.pool), Ok(RecordOf(s.kv, blocks, numTokens)))
    case Err(e) => Swap(s.(pool := o.pool), Err(e))
  }

  /** Assigning `n` rows to `m` selected blocks: sizes must agree, or a single row is repeated. */
  predicate Broadcasts(n: nat, m: nat) {
    n == m || n == 1
  }

  function IndexOf(blocks: seq<Block>, b: Block): (i: nat)
    requires b in blocks
    ensures i < |blocks| && blocks[i] == b
  {
    if blocks[0] == b then 0 else 1 + IndexOf(blocks[1..], b)
  }

  /** `pool[:, blocks] = rows` in one layer. */
  function SetRows(layer: Layer, blocks: seq<Block>, rows: seq<seq<KV>>): (r: Layer)
    requires Broadcasts(|rows|, |blocks|)
    ensures |r| == |layer|
  {
    seq(|layer|, b requires 0 <= b < |layer| =>
      if b in blocks then rows[if |rows| == 1 then 0 else IndexOf(blocks, b)] else layer[b])
  }

  /** The loop over layers; a shape error leaves the layers before it written. */
  function SetLayers(kv: seq<Layer>, blocks: seq<Block>, rows: seq<seq<seq<KV>>>, l: nat): (seq<Layer>, Result<()>)
    decreases |rows| - l
  {
    if l >= |rows| then (kv, Ok(()))
    else if l >= |kv| then (kv, Err(IndexError))
    else if !Broadcasts(|rows[l]|, |blocks|) then (kv, Err(ShapeError))
    else SetLayers(kv[l := SetRows(kv[l], blocks, rows[l])], blocks, rows, l + 1)
  }

  /** `swap_in` for a given block count. The code reads the count off axis 0 of the parked keys, which
      is the number of KV heads; the number of blocks is on axis 1. */
  function SwapIn(s: Store, record: Record, count: nat): Swap<(seq<Block>, nat)> {
    var o := P.Allocate(s.pool, count);
    match o.result
    case Err(e) => Swap(s.(pool := o.pool), Err(e))
    case Ok(blocks) =>
      var (kv, done) := SetLayers(s.kv, blocks, record.rows, 0);
      match done
      case Err(e) => Swap(Store(o.pool, kv), Err(e))
      case Ok(_) => Swap(Store(o.pool, kv), Ok((blocks, record.numTokens)))
  }

  /** Newest first, until what the victims hold covers the need. */
  function SelectFrom(candidates: seq<(Id, nat)>, needed: int, freed: nat): seq<Id> {
    if candidates == [] || freed >= needed then []
    else
      var (id, held) := candidates[|candidates| - 1];
      [id] + SelectFrom(candidates[..|candidates| - 1], needed, freed + held)
  }
}
