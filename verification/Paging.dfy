/** Paged storage as functions on values (edgerag/cache/block_table.py, edgerag/cache/paged.py).

    `Store` is the shared arena, `Cache` one sequence's handle on it. What a write by
    one sequence does to it and to everybody else is stated in PagingProofs.dfy. */
module Paging {
  import opened Common
  import opened Tensors
  import P = Pools

  datatype Table = Table(blocks: seq<Block>, numTokens: nat)
  datatype Cache = Cache(table: Table, pending: nat, firstLayer: nat)
  datatype Store = Store(pool: P.Pool, kv: seq<Layer>)

  datatype TableOut<T> = TableOut(pool: P.Pool, table: Table, result: Result<T>)
  datatype Out<T> = Out(store: Store, cache: Cache, result: Result<T>)

  const EMPTY_TABLE := Table([], 0)

  // ------------------------------------------------------------------------------ block tables

  function EnsureCapacity(p: P.Pool, t: Table, n: int): TableOut<seq<Block>>
    requires p.blockSize > 0
  {
    if n < 0 then TableOut(p, t, Err(ValueError))
    else
      var needed := CeilDiv(n, p.blockSize);
      if needed <= |t.blocks| then TableOut(p, t, Ok([]))
      else
        var o := P.Allocate(p, needed - |t.blocks|);
        match o.result
        case Ok(taken) => TableOut(o.pool, t.(blocks := t.blocks + taken), Ok(taken))
        case Err(e) => TableOut(o.pool, t, Err(e))
  }

  function Append(p: P.Pool, t: Table, n: nat): TableOut<seq<Block>>
    requires p.blockSize > 0
  {
    var o := EnsureCapacity(p, t, t.numTokens + n);
    if o.result.Ok? then o.(table := o.table.(numTokens := t.numTokens + n)) else o
  }

  function ForkTable(p: P.Pool, t: Table): TableOut<Table> {
    var o := P.Incref(p, t.blocks);
    match o.result
    case Ok(_) => TableOut(o.pool, t, Ok(t))
    case Err(e) => TableOut(o.pool, t, Err(e))
  }

  function Unshare(p: P.Pool, t: Table, k: nat): TableOut<Option<(Block, Block)>> {
    if k >= |t.blocks| then TableOut(p, t, Err(IndexError))
    else
      var old_ := t.blocks[k];
      var o := P.CopyOnWrite(p, old_);
      match o.result
      case Err(e) => TableOut(o.pool, t, Err(e))
      case Ok(new_) =>
        if new_ == old_ then TableOut(o.pool, t, Ok(None))
        else TableOut(o.pool, t.(blocks := t.blocks[k := new_]), Ok(Some((old_, new_))))
  }

  function FreeTable(p: P.Pool, t: Table): TableOut<nat> {
    var o := P.Free(p, t.blocks);
    match o.result
    case Ok(n) => TableOut(o.pool, EMPTY_TABLE, Ok(n))
    case Err(e) => TableOut(o.pool, t, Err(e))
  }

  function Locate(t: Table, blockSize: nat, position: int): Result<(Block, nat)>
    requires blockSize > 0
  {
    if 0 <= position < t.numTokens && position / blockSize < |t.blocks| then
      DivBounds(position, blockSize);
      Ok((t.blocks[position / blockSize], position % blockSize))
    else Err(IndexError)
  }

  // ------------------------------------------------------------------------- the shared buffers

  /** `pool[:, new].copy_(pool[:, old])` in one layer. */
  function CopyRow(layer: Layer, old_: Block, new_: Block): (r: Layer)
    ensures |r| == |layer|
  {
    if 0 <= old_ < |layer| && 0 <= new_ < |layer| then layer[new_ := layer[old_]] else layer
  }

  function CopyBlock(kv: seq<Layer>, old_: Block, new_: Block): (r: seq<Layer>)
    ensures |r| == |kv|
    ensures forall l :: 0 <= l < |kv| ==> r[l] == CopyRow(kv[l], old_, new_)
  {
    seq(|kv|, l requires 0 <= l < |kv| => CopyRow(kv[l], old_, new_))
  }

  /** Store one position's entry: block `pos / bs` of the table, slot `pos % bs`. */
  function Put(layer: Layer, blocks: seq<Block>, bs: nat, pos: nat, x: KV): (r: Layer)
    requires bs > 0
    ensures |r| == |layer|
  {
    var k := pos / bs;
    if 0 <= k < |blocks| && 0 <= blocks[k] < |layer| && pos % bs < |layer[blocks[k]]| then
      layer[blocks[k] := layer[blocks[k]][pos % bs := x]]
    else layer
  }

  function Write(layer: Layer, blocks: seq<Block>, bs: nat, start: nat, xs: seq<KV>): (r: Layer)
    requires bs > 0
    ensures |r| == |layer|
    decreases |xs|
  {
    if xs == [] then layer
    else Write(Put(layer, blocks, bs, start, xs[0]), blocks, bs, start + 1, xs[1..])
  }

  function Row(layer: Layer, b: Block): seq<KV> {
    if 0 <= b < |layer| then layer[b] else []
  }

  /** `pool[:, block_ids]`: the table's blocks in logical order. */
  function Rows(layer: Layer, blocks: seq<Block>): (r: seq<seq<KV>>)
    ensures |r| == |blocks|
    ensures forall k :: 0 <= k < |blocks| ==> r[k] == Row(layer, blocks[k])
  {
    seq(|blocks|, k requires 0 <= k < |blocks| => Row(layer, blocks[k]))
  }

  /** The `reshape` that joins the block and slot axes. */
  function Concat(rows: seq<seq<KV>>): seq<KV> {
    if rows == [] then [] else rows[0] + Concat(rows[1..])
  }

  function Flat(layer: Layer, blocks: seq<Block>): seq<KV> {
    Concat(Rows(layer, blocks))
  }

  /** `gather`: the joined blocks cut to `num_tokens`, so the unwritten tail is never returned. */
  function Gather(layer: Layer, t: Table): seq<KV> {
    var flat := Flat(layer, t.blocks);
    if t.numTokens <= |flat| then flat[..t.numTokens] else flat
  }

  // --------------------------------------------------------------------------------- the update

  /** Copy-on-write over logical blocks `k..last`, contents copied in every layer. */
  function UnshareRange(s: Store, c: Cache, k: nat, last: int): Out<()>
    decreases last + 1 - k
  {
    if k > last then Out(s, c, Ok(()))
    else
      var o := Unshare(s.pool, c.table, k);
      match o.result
      case Err(e) => Out(s.(pool := o.pool), c.(table := o.table), Err(e))
      case Ok(None) => UnshareRange(s.(pool := o.pool), c.(table := o.table), k + 1, last)
      case Ok(Some((old_, new_))) =>
        UnshareRange(Store(o.pool, CopyBlock(s.kv, old_, new_)), c.(table := o.table), k + 1, last)
  }

  /** Python's floor division by a positive number, with its range. */
  function Div(a: int, b: nat): (q: int)
    requires b > 0
    ensures a >= 0 ==> q >= 0
  {
    DivBounds(a, b);
    a / b
  }

  /** The once-per-forward bookkeeping, done when the first layer is updated. */
  function Begin(s: Store, c: Cache, n: nat): Out<()>
    requires s.pool.blockSize > 0
  {
    var o := Append(s.pool, c.table, n);
    var s1 := s.(pool := o.pool);
    var c1 := c.(pending := n, table := o.table);
    match o.result
    case Err(e) => Out(s1, c1, Err(e))
    case Ok(_) =>
      if c1.table.blocks == [] then Out(s1, c1, Ok(()))
      else
        var start := c.table.numTokens;
        UnshareRange(s1, c1, Div(start, s.pool.blockSize), Div(start + n - 1, s.pool.blockSize))
  }

  /** `PagedKVCache.update`. A write outside the table's blocks is an index error; the decoder, which
      hands every layer of one forward the same tokens, never asks for one. */
  function Update(s: Store, c: Cache, layer: nat, xs: seq<KV>): Out<seq<KV>>
    requires s.pool.blockSize > 0
    requires c.firstLayer <= layer
  {
    var o := if layer == c.firstLayer then Begin(s, c, |xs|) else Out(s, c, Ok(()));
    if o.result.Err? then Out(o.store, o.cache, Err(o.result.error))
    else
      var start := o.cache.table.numTokens - o.cache.pending;
      var l := layer - c.firstLayer;
      if start < 0 || start + |xs| > |o.cache.table.blocks| * s.pool.blockSize || l >= |o.store.kv| then
        Out(o.store, o.cache, Err(IndexError))
      else
        var written := Write(o.store.kv[l], o.cache.table.blocks, s.pool.blockSize, start, xs);
        Out(o.store.(kv := o.store.kv[l := written]), o.cache, Ok(Gather(written, o.cache.table)))
  }

  // ------------------------------------------------------------------------------- the invariants

  ghost predicate Shaped(s: Store) {
    && s.pool.blockSize > 0
    && forall l :: 0 <= l < |s.kv| ==> ShapedLayer(s.kv[l], |s.pool.refcount|, s.pool.blockSize)
  }

  ghost predicate ShapedLayer(layer: Layer, n: nat, bs: nat) {
    |layer| == n && forall b :: 0 <= b < n ==> |layer[b]| == bs
  }

  /** The store holds, for this table, a history per layer: each is a prefix of the joined blocks. */
  ghost predicate Rep(s: Store, c: Cache, h: Hist) {
    && |h| == |s.kv|
    && c.table.numTokens <= |c.table.blocks| * s.pool.blockSize
    && forall l :: 0 <= l < |h| ==> |h[l]| <= c.table.numTokens && h[l] <= Flat(s.kv[l], c.table.blocks)
  }

  /** Nobody but the writer refers to the blocks that positions `[start, start+n)` live in. */
  ghost predicate Private(bs: nat, c: Cache, others: multiset<Block>, start: nat, n: nat)
    requires bs > 0
  {
    n > 0 ==> forall k :: start / bs <= k <= (start + n - 1) / bs ==> Alone(c, others, k)
  }

  ghost predicate Alone(c: Cache, others: multiset<Block>, k: int) {
    0 <= k < |c.table.blocks| && (multiset(c.table.blocks) + others)[c.table.blocks[k]] == 1
  }

  /** Every block in `held` reads the same in both arenas, at every layer. */
  ghost predicate SameOn(kv: seq<Layer>, kv': seq<Layer>, held: multiset<Block>) {
    && |kv| == |kv'|
    && forall l, b :: 0 <= l < |kv| && b in held ==> Row(kv[l], b) == Row(kv'[l], b)
  }

  // -------------------------------------------------------------------------- joining the blocks

  lemma {:induction false} ConcatLength(rows: seq<seq<KV>>, bs: nat)
    requires forall k :: 0 <= k < |rows| ==> |rows[k]| == bs
    ensures |Concat(rows)| == |rows| * bs
  {
    if rows != [] {
      ConcatLength(rows[1..], bs);
      assert |rows| * bs == bs + (|rows| - 1) * bs;
    }
  }

  lemma {:induction false} ConcatAppend(a: seq<seq<KV>>, b: seq<seq<KV>>)
    ensures Concat(a + b) == Concat(a) + Concat(b)
  {
    if a == [] {
      assert a + b == b;
    } else {
      assert (a + b)[0] == a[0] && (a + b)[1..] == a[1..] + b;
      calc {
        Concat(a + b);
        a[0] + Concat(a[1..] + b);
        { ConcatAppend(a[1..], b); }
        a[0] + (Concat(a[1..]) + Concat(b));
        a[0] + Concat(a[1..]) + Concat(b);
      }
    }
  }

  /** Overwriting slot `s` of row `k` overwrites exactly position `k * bs + s` of the join. */
  lemma {:induction false} ConcatUpdate(rows: seq<seq<KV>>, bs: nat, k: nat, s: nat, x: KV)
    requires k < |rows| && s < bs
    requires forall j :: 0 <= j < |rows| ==> |rows[j]| == bs
    ensures 0 <= k * bs + s < |Concat(rows)|
    ensures Concat(rows[k := rows[k][s := x]]) == Concat(rows)[k * bs + s := x]
  {
    var new_ := rows[k := rows[k][s := x]];
    ConcatLength(rows, bs);
    if k == 0 {
      assert new_[1..] == rows[1..];
      assert rows[0][s := x] + Concat(rows[1..]) == (rows[0] + Concat(rows[1..]))[s := x];
    } else {
      ConcatUpdate(rows[1..], bs, k - 1, s, x);
      assert new_[1..] == rows[1..][k - 1 := rows[1..][k - 1][s := x]];
      assert k * bs == bs + (k - 1) * bs;
      assert rows[0] + Concat(rows[1..])[(k - 1) * bs + s := x] == (rows[0] + Concat(rows[1..]))[k * bs + s := x];
    }
  }

  /** Where a position of the join comes from. */
  lemma ConcatAt(rows: seq<seq<KV>>, bs: nat, i: nat)
    requires bs > 0 && i < |rows| * bs && forall k :: 0 <= k < |rows| ==> |rows[k]| == bs
    ensures 0 <= i / bs < |rows| && 0 <= i % bs < bs && |Concat(rows)| == |rows| * bs
    ensures Concat(rows)[i] == rows[i / bs][i % bs]
  {
    hide Concat;
    ConcatLength(rows, bs);
    Located(i, |rows|, bs);
    DivBounds(i, bs);
    ConcatSlot(rows, bs, i / bs, i % bs);
  }

  lemma {:induction false} ConcatSlot(rows: seq<seq<KV>>, bs: nat, k: nat, s: nat)
    requires k < |rows| && s < bs && forall j :: 0 <= j < |rows| ==> |rows[j]| == bs
    ensures 0 <= k * bs + s < |Concat(rows)| && Concat(rows)[k * bs + s] == rows[k][s]
  {
    ConcatLength(rows, bs);
    if k > 0 {
      ConcatSlot(rows[1..], bs, k - 1, s);
      assert k * bs == bs + (k - 1) * bs;
    }
  }

  lemma FlatLength(s: Store, l: nat, blocks: seq<Block>)
    requires Shaped(s) && l < |s.kv|
    requires forall b :: b in blocks ==> P.InRange(s.pool, b)
    ensures |Flat(s.kv[l], blocks)| == |blocks| * s.pool.blockSize
  {
    forall k | 0 <= k < |blocks| ensures |Row(s.kv[l], blocks[k])| == s.pool.blockSize {
      assert blocks[k] in blocks;
    }
    ConcatLength(Rows(s.kv[l], blocks), s.pool.blockSize);
  }

  lemma FlatAppend(layer: Layer, a: seq<Block>, b: seq<Block>)
    ensures Flat(layer, a + b) == Flat(layer, a) + Flat(layer, b)
  {
    assert Rows(layer, a + b) == Rows(layer, a) + Rows(layer, b);
    ConcatAppend(Rows(layer, a), Rows(layer, b));
  }

  /** One more block joins its row. */
  lemma FlatPush(layer: Layer, blocks: seq<Block>, k: nat)
    requires k < |blocks|
    ensures Flat(layer, blocks[..k + 1]) == Flat(layer, blocks[..k]) + Row(layer, blocks[k])
  {
    assert blocks[..k + 1] == blocks[..k] + [blocks[k]];
    FlatAppend(layer, blocks[..k], [blocks[k]]);
    assert Rows(layer, [blocks[k]]) == [Row(layer, blocks[k])];
    assert Concat([Row(layer, blocks[k])]) == Row(layer, blocks[k]) + Concat([]);
  }

  /** A sequence none of whose blocks changed still represents the same history. */
  lemma RepFrame(s: Store, s': Store, c: Cache, h: Hist, held: multiset<Block>)
    requires Rep(s, c, h) && SameOn(s.kv, s'.kv, held) && s'.pool.blockSize == s.pool.blockSize
    requires multiset(c.table.blocks) <= held
    ensures Rep(s', c, h)
  {
    forall l | 0 <= l < |h| ensures Flat(s.kv[l], c.table.blocks) == Flat(s'.kv[l], c.table.blocks) {
      forall k | 0 <= k < |c.table.blocks|
        ensures Row(s.kv[l], c.table.blocks[k]) == Row(s'.kv[l], c.table.blocks[k])
      {
        assert c.table.blocks[k] in multiset(c.table.blocks);
        assert c.table.blocks[k] in held;
      }
      assert Rows(s.kv[l], c.table.blocks) == Rows(s'.kv[l], c.table.blocks);
    }
  }
}
