/** The shared pool tensors, written in place: element `[layer, block, slot]` is one position's KV
    (edgerag/cache/paged.py, `_unshare_write_range`, `_write` and `_gather_pool`). */
module BlockPools {
  import opened Common
  import opened Tensors
  import opened Paging

  ghost function RowView(pool: array3<KV>, l: nat, b: nat): (r: seq<KV>)
    requires l < pool.Length0 && b < pool.Length1
    reads pool
    ensures |r| == pool.Length2 && forall s :: 0 <= s < pool.Length2 ==> r[s] == pool[l, b, s]
  {
    seq(pool.Length2, s requires 0 <= s < pool.Length2 reads pool => pool[l, b, s])
  }

  ghost function LayerView(pool: array3<KV>, l: nat): (r: Layer)
    requires l < pool.Length0
    reads pool
    ensures |r| == pool.Length1 && forall b :: 0 <= b < pool.Length1 ==> r[b] == RowView(pool, l, b)
  {
    seq(pool.Length1, b requires 0 <= b < pool.Length1 reads pool => RowView(pool, l, b))
  }

  ghost function View(pool: array3<KV>): (r: seq<Layer>)
    reads pool
    ensures |r| == pool.Length0 && forall l :: 0 <= l < pool.Length0 ==> r[l] == LayerView(pool, l)
  {
    seq(pool.Length0, l requires 0 <= l < pool.Length0 reads pool => LayerView(pool, l))
  }

  /** Rows untouched since an earlier view are rows of that view. */
  ghost predicate RowIs(pool: array3<KV>, l: nat, b: nat, row: seq<KV>)
    requires l < pool.Length0 && b < pool.Length1
    reads pool
  {
    |row| == pool.Length2 && forall s :: 0 <= s < pool.Length2 ==> pool[l, b, s] == row[s]
  }

  lemma RowIsView(pool: array3<KV>, l: nat, b: nat, row: seq<KV>)
    requires l < pool.Length0 && b < pool.Length1 && RowIs(pool, l, b, row)
    ensures RowView(pool, l, b) == row
  {
  }

  lemma LayerIs(pool: array3<KV>, l: nat, layer: Layer)
    requires l < pool.Length0 && |layer| == pool.Length1
    requires forall b :: 0 <= b < pool.Length1 ==> RowIs(pool, l, b, layer[b])
    ensures LayerView(pool, l) == layer
  {
    forall b | 0 <= b < pool.Length1 ensures LayerView(pool, l)[b] == layer[b] {
      RowIsView(pool, l, b, layer[b]);
    }
  }

  /** Copy one block over another in one layer. */
  method CopyRowIn(pool: array3<KV>, l: nat, old_: Block, new_: Block)
    requires l < pool.Length0
    modifies pool
    ensures View(pool) == old(View(pool))[l := CopyRow(old(View(pool))[l], old_, new_)]
  {
    ghost var before := View(pool);
    if 0 <= old_ < pool.Length1 && 0 <= new_ < pool.Length1 {
      forall s | 0 <= s < pool.Length2 {
        pool[l, new_, s] := pool[l, old_, s];
      }
    }
    ghost var after := CopyRow(before[l], old_, new_);
    forall k | 0 <= k < pool.Length0 ensures LayerView(pool, k) == if k == l then after else before[k] {
      var layer := if k == l then after else before[k];
      forall b | 0 <= b < pool.Length1 ensures RowIs(pool, k, b, layer[b]) {
        assert before[k][b] == old(RowView(pool, k, b));
      }
      LayerIs(pool, k, layer);
    }
  }

  /** `pool[layer][:, new].copy_(pool[layer][:, old])` for every layer. */
  method CopyBlockIn(pool: array3<KV>, old_: Block, new_: Block)
    modifies pool
    ensures View(pool) == CopyBlock(old(View(pool)), old_, new_)
  {
    ghost var before := View(pool);
    var l := 0;
    while l < pool.Length0
      invariant 0 <= l <= pool.Length0
      invariant forall k :: 0 <= k < pool.Length0 ==> View(pool)[k] == if k < l then CopyRow(before[k], old_, new_) else before[k]
    {
      CopyRowIn(pool, l, old_, new_);
      l := l + 1;
    }
  }

  /** One position into its block and slot. */
  method PutIn(pool: array3<KV>, l: nat, blocks: seq<Block>, bs: nat, pos: nat, x: KV)
    requires l < pool.Length0 && bs > 0
    modifies pool
    ensures View(pool) == old(View(pool))[l := Put(old(View(pool))[l], blocks, bs, pos, x)]
  {
    ghost var before := View(pool);
    DivBounds(pos, bs);
    var k := pos / bs;
    if 0 <= k < |blocks| && 0 <= blocks[k] < pool.Length1 && pos % bs < pool.Length2 {
      pool[l, blocks[k], pos % bs] := x;
    }
    ghost var after := Put(before[l], blocks, bs, pos, x);
    forall j | 0 <= j < pool.Length0 ensures LayerView(pool, j) == if j == l then after else before[j] {
      var layer := if j == l then after else before[j];
      forall b | 0 <= b < pool.Length1 ensures RowIs(pool, j, b, layer[b]) {
        assert before[j][b] == old(RowView(pool, j, b));
      }
      LayerIs(pool, j, layer);
    }
  }

  /** `_write`: scatter the new positions. */
  method WriteIn(pool: array3<KV>, l: nat, blocks: seq<Block>, bs: nat, start: nat, xs: seq<KV>)
    requires l < pool.Length0 && bs > 0
    modifies pool
    ensures View(pool) == old(View(pool))[l := Write(old(View(pool))[l], blocks, bs, start, xs)]
  {
    hide Put;
    ghost var before := View(pool);
    ghost var layer := before[l];
    assert xs[0..] == xs && before[l := layer] == before;
    var i := 0;
    while i < |xs|
      invariant 0 <= i <= |xs|
      invariant View(pool) == before[l := layer]
      invariant Write(layer, blocks, bs, start + i, xs[i..]) == Write(before[l], blocks, bs, start, xs)
    {
      assert xs[i..][0] == xs[i] && xs[i..][1..] == xs[i + 1..];
      PutIn(pool, l, blocks, bs, start + i, xs[i]);
      layer := Put(layer, blocks, bs, start + i, xs[i]);
      i := i + 1;
    }
  }

  /** `_gather_pool`: the blocks in logical order, joined, cut to the written length. */
  method GatherFrom(pool: array3<KV>, l: nat, t: Table) returns (r: seq<KV>)
    requires l < pool.Length0
    ensures r == Gather(View(pool)[l], t)
  {
    var flat: seq<KV> := [];
    var k := 0;
    ghost var layer := View(pool)[l];
    while k < |t.blocks|
      invariant 0 <= k <= |t.blocks|
      invariant flat == Flat(layer, t.blocks[..k])
    {
      ghost var done := flat;
      if 0 <= t.blocks[k] < pool.Length1 {
        var s := 0;
        while s < pool.Length2
          invariant 0 <= s <= pool.Length2
          invariant flat == done + Row(layer, t.blocks[k])[..s]
        {
          flat := flat + [pool[l, t.blocks[k], s]];
          assert Row(layer, t.blocks[k])[..s + 1] == Row(layer, t.blocks[k])[..s] + [Row(layer, t.blocks[k])[s]];
          s := s + 1;
        }
        assert Row(layer, t.blocks[k])[..s] == Row(layer, t.blocks[k]);
      } else {
        assert done + [] == done;
      }
      FlatPush(layer, t.blocks, k);
      k := k + 1;
    }
    assert t.blocks[..k] == t.blocks;
    return if t.numTokens <= |flat| then flat[..t.numTokens] else flat;
  }
}
