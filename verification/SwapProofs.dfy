/** Swapping out and in keeps the sequence's history, in any arena and whatever happens in between;
    and exactly when the shipped `swap_in` achieves that. */
module SwapProofs {
  import opened Common
  import opened Tensors
  import opened Paging
  import opened PagingProofs
  import opened Prefixes
  import opened Arenas
  import opened ArenaProofs
  import opened ArenaRuns
  import opened Owners
  import opened Requests
  import opened Scheduling
  import opened Swaps
  import opened Shapes
  import P = Pools

  /** The record holds history `h`: `n` whole blocks per layer that start with it. */
  ghost predicate Parked(record: Record, h: Hist, bs: nat, n: nat) {
    && |record.rows| == |h| && record.numTokens <= n * bs
    && forall l :: 0 <= l < |h| ==> ParkedLayer(record.rows[l], h[l], bs, n) && |h[l]| == record.numTokens
  }

  ghost predicate ParkedLayer(rows: seq<seq<KV>>, h: seq<KV>, bs: nat, n: nat) {
    && |rows| == n && (forall k :: 0 <= k < n ==> |rows[k]| == bs)
    && h <= Concat(rows)
  }

  /** The copy is taken before the blocks are freed, so what is parked is the sequence's history; the
      pool afterwards is the pool without this holder. */
  lemma SwapOutParks(a: Arena, hs: seq<Hist>, id: nat, kvOf: Oracle)
    requires Inv(a, hs, kvOf) && id < |a.caches| && Boundary(a.caches[id], hs[id])
    ensures a.store.pool.blockSize > 0
    ensures var c := a.caches[id];
      var o := SwapOut(a.store, c.table.blocks, c.table.numTokens);
      && o.result.Ok? && Parked(o.result.value, hs[id], a.store.pool.blockSize, |c.table.blocks|)
      && o.result.value.numTokens == c.table.numTokens
      && Seat(a, id, o.store, c.(table := EMPTY_TABLE)) == Do(a, Free(id)).arena
      && Inv(Do(a, Free(id)).arena, hs[id := NoHist(|a.store.kv|)], kvOf)
  {
    hide Inv, P.Exact, Others, AllHeld, Midway, P.Free, Concat;
    InvHeld(a, hs, kvOf, id);
    var c := a.caches[id];
    FreeCorrect(a.store, c, Others(a, id));
    FreeStep(a, hs, id, kvOf);
    HeldInRange(a.store, c, Others(a, id));
    var record := SwapOut(a.store, c.table.blocks, c.table.numTokens).result.value;
    forall l | 0 <= l < |hs[id]|
      ensures ParkedLayer(record.rows[l], hs[id][l], a.store.pool.blockSize, |c.table.blocks|)
    {
      forall k | 0 <= k < |c.table.blocks| ensures |record.rows[l][k]| == a.store.pool.blockSize {
        assert c.table.blocks[k] in c.table.blocks;
      }
    }
  }

  // ------------------------------------------------------------------------------- coming back

  lemma {:induction false} SetLayersIs(kv: seq<Layer>, blocks: seq<Block>, rows: seq<seq<seq<KV>>>, l: nat, n: nat)
    requires |rows| == |kv| && l <= |kv| && Broadcasts(n, |blocks|)
    requires forall k :: 0 <= k < |rows| ==> |rows[k]| == n
    ensures var (kv', done) := SetLayers(kv, blocks, rows, l);
      && done == Ok(()) && |kv'| == |kv|
      && forall k :: 0 <= k < |kv| ==> kv'[k] == if k < l then kv[k] else SetRows(kv[k], blocks, rows[k])
    decreases |rows| - l
  {
    hide SetRows;
    if l < |rows| {
      SetLayersIs(kv[l := SetRows(kv[l], blocks, rows[l])], blocks, rows, l + 1, n);
    }
  }

  /** Reading the written blocks back gives what was parked, repeated rows and all. */
  lemma RowsBack(layer: Layer, blocks: seq<Block>, rows: seq<seq<KV>>, h: seq<KV>, bs: nat, n: nat)
    requires ParkedLayer(rows, h, bs, n) && Broadcasts(n, |blocks|) && Distinct(blocks) && (n == 1 ==> |blocks| > 0)
    requires forall b :: b in blocks ==> 0 <= b < |layer|
    ensures h <= Flat(SetRows(layer, blocks, rows), blocks)
  {
    hide IndexOf;
    var back := Rows(SetRows(layer, blocks, rows), blocks);
    forall k | 0 <= k < |blocks| ensures back[k] == rows[if n == 1 then 0 else k] {
      assert blocks[k] in blocks;
    }
    if n == 1 {
      assert rows == [rows[0]] && Concat(rows) == rows[0] + Concat(rows[1..]) && rows[1..] == [];
      assert Concat(back) == rows[0] + Concat(back[1..]);
    } else {
      assert back == rows;
    }
  }

  /** One layer after the copy back: the history is there, and nothing held by others changed. */
  ghost predicate LayerDone(layer: Layer, layer': Layer, size: nat, blocks: seq<Block>, h: seq<KV>, bs: nat, held: multiset<Block>) {
    && ShapedLayer(layer', size, bs) && h <= Flat(layer', blocks)
    && forall b :: b in held ==> Row(layer', b) == Row(layer, b)
  }

  lemma LayerBack(layer: Layer, size: nat, blocks: seq<Block>, rows: seq<seq<KV>>, h: seq<KV>, bs: nat, n: nat, held: multiset<Block>)
    requires ShapedLayer(layer, size, bs)
    requires ParkedLayer(rows, h, bs, n) && Broadcasts(n, |blocks|) && Distinct(blocks) && (n == 1 ==> |blocks| > 0)
    requires forall b :: b in blocks ==> b !in held && 0 <= b < size
    ensures LayerDone(layer, SetRows(layer, blocks, rows), size, blocks, h, bs, held)
  {
    hide Concat, IndexOf, Flat;
    RowsBack(layer, blocks, rows, h, bs, n);
  }

  lemma Capacity(record: Record, h: Hist, bs: nat, n: nat, blocks: seq<Block>)
    requires Parked(record, h, bs, n) && Broadcasts(n, |blocks|) && (n == 1 ==> |blocks| > 0)
    ensures record.numTokens <= |blocks| * bs
  {
    if n == 1 { MulLe(1, |blocks|, bs); }
  }

  /** What a successful write of the parked rows into newly allocated blocks makes of the store. */
  lemma WrittenBack(s: Store, held: multiset<Block>, pool: P.Pool, blocks: seq<Block>, record: Record, h: Hist, n: nat, firstLayer: nat)
    requires Shaped(s) && Distinct(blocks)
    requires pool.blockSize == s.pool.blockSize && |pool.refcount| == |s.pool.refcount|
    requires forall b :: b in blocks ==> b !in held && P.InRange(s.pool, b)
    requires Parked(record, h, s.pool.blockSize, n) && |h| == |s.kv| && Broadcasts(n, |blocks|) && (n == 1 ==> |blocks| > 0)
    ensures var (kv, done) := SetLayers(s.kv, blocks, record.rows, 0);
      var c := Cache(Table(blocks, record.numTokens), 0, firstLayer);
      && done == Ok(()) && Shaped(Store(pool, kv)) && Rep(Store(pool, kv), c, h) && Boundary(c, h) && SameOn(s.kv, kv, held)
  {
    hide Flat, SetRows, SetLayers, ParkedLayer, ShapedLayer, Row, Broadcasts, Rep, SameOn, LayerDone;
    var bs := s.pool.blockSize;
    Counts(record, h, bs, n);
    SetLayersIs(s.kv, blocks, record.rows, 0, n);
    var kv := SetLayers(s.kv, blocks, record.rows, 0).0;
    forall l | 0 <= l < |h| ensures LayerDone(s.kv[l], kv[l], |pool.refcount|, blocks, h[l], bs, held) {
      LayerBack(s.kv[l], |s.pool.refcount|, blocks, record.rows[l], h[l], bs, n, held);
    }
    Capacity(record, h, bs, n, blocks);
    Assembled(s, Store(pool, kv), Cache(Table(blocks, record.numTokens), 0, firstLayer), h, held);
  }

  lemma Assembled(s: Store, s': Store, c: Cache, h: Hist, held: multiset<Block>)
    requires |s'.kv| == |s.kv| == |h| && s'.pool.blockSize > 0 && c.table.numTokens <= |c.table.blocks| * s'.pool.blockSize
    requires forall l :: 0 <= l < |h| ==>
      |h[l]| == c.table.numTokens && LayerDone(s.kv[l], s'.kv[l], |s'.pool.refcount|, c.table.blocks, h[l], s'.pool.blockSize, held)
    ensures Shaped(s') && Rep(s', c, h) && SameOn(s.kv, s'.kv, held)
  {
    hide Flat, Row, ShapedLayer;
  }

  lemma Counts(record: Record, h: Hist, bs: nat, n: nat)
    requires Parked(record, h, bs, n)
    ensures |record.rows| == |h| && forall l :: 0 <= l < |h| ==> |record.rows[l]| == n
  {
  }

  lemma {:induction false} Mismatched(kv: seq<Layer>, blocks: seq<Block>, rows: seq<seq<seq<KV>>>)
    requires |rows| > 0 && |kv| > 0 && !Broadcasts(|rows[0]|, |blocks|)
    ensures SetLayers(kv, blocks, rows, 0) == (kv, Err(ShapeError))
  {
  }

  /** Taking a parked sequence back, for any block count, in any arena and after any activity: it works
      exactly when that many blocks are free and the rows fit them; then the history is there again,
      in blocks nobody else refers to, and nobody else's changed. When the count is wrong, that many
      blocks are taken and never given to anybody. */
  lemma SwapInExact(a: Arena, hs: seq<Hist>, id: nat, kvOf: Oracle, record: Record, h: Hist, n: nat, count: nat)
    requires Inv(a, hs, kvOf) && id < |a.caches| && a.caches[id].table == EMPTY_TABLE
    requires a.store.pool.blockSize > 0 && Parked(record, h, a.store.pool.blockSize, n) && |h| == |a.store.kv| > 0
    requires n == 1 ==> count > 0
    ensures var o := SwapIn(a.store, record, count);
      && (o.result.Ok? <==> count <= |a.store.pool.free| && Broadcasts(n, count))
      && (o.result.Ok? ==>
            var (blocks, m) := o.result.value;
            var c := Cache(Table(blocks, m), 0, a.caches[id].firstLayer);
            && Distinct(blocks) && |blocks| == count && (forall b :: b in blocks ==> AllHeld(a)[b] == 0)
            && m == record.numTokens
            && Inv(Seat(a, id, o.store, c), hs[id := h], kvOf) && Boundary(c, h))
      && (o.result.Err? && count > |a.store.pool.free| ==> o == Swap(a.store, Err(OutOfBlocks)))
      && (o.result.Err? && count <= |a.store.pool.free| ==>
            && o.result.error == ShapeError && o.store.kv == a.store.kv
            && |o.store.pool.free| == |a.store.pool.free| - count
            && exists leaked: seq<Block> :: |leaked| == count && P.Exact(o.store.pool, AllHeld(a) + multiset(leaked)))
  {
    hide Inv, P.Exact, Others, AllHeld, Midway, P.Allocate, Concat, Bag, Rep, SetLayers, Shaped, SameOn, Boundary;
    InvHeld(a, hs, kvOf, id);
    EmptyOthers(a, id);
    HeldShaped(a, id);
    P.AllocateExact(a.store.pool, AllHeld(a), count);
    var o := P.Allocate(a.store.pool, count);
    if count <= |a.store.pool.free| {
      var blocks := o.result.value;
      Counts(record, h, a.store.pool.blockSize, n);
      if Broadcasts(n, count) {
        var first := a.caches[id].firstLayer;
        WrittenBack(a.store, AllHeld(a), o.pool, blocks, record, h, n, first);
        var s' := SwapIn(a.store, record, count).store;
        var c := Cache(Table(blocks, record.numTokens), 0, first);
        FreshIsolated(a, id, s', c);
        BoundaryMidway(a.store.pool.blockSize, c, h, Others(a, id));
        ReplaceTenant(a, hs, kvOf, id, s', c, h);
      } else {
        Mismatched(a.store.kv, blocks, record.rows);
      }
    }
  }

  lemma EmptyOthers(a: Arena, id: nat)
    requires id < |a.caches| && a.caches[id].table == EMPTY_TABLE
    ensures Others(a, id) == AllHeld(a)
  {
    hide AllHeld;
  }

  lemma HeldShaped(a: Arena, id: nat)
    requires id < |a.caches| && Held(a.store, a.caches[id], AllHeld(a)) && a.caches[id].table == EMPTY_TABLE
    ensures Shaped(a.store) && P.Exact(a.store.pool, AllHeld(a))
  {
    hide AllHeld, P.Exact;
    assert multiset(EMPTY_TABLE.blocks) + AllHeld(a) == AllHeld(a);
  }

  lemma FreshIsolated(a: Arena, id: nat, s': Store, c: Cache)
    requires id < |a.caches| && Others(a, id) == AllHeld(a)
    requires Shaped(s') && P.Exact(s'.pool, AllHeld(a) + multiset(c.table.blocks)) && SameOn(a.store.kv, s'.kv, AllHeld(a))
    requires forall b :: b in c.table.blocks ==> b !in AllHeld(a)
    requires c.firstLayer == a.caches[id].firstLayer
    requires s'.pool.blockSize == a.store.pool.blockSize && |s'.pool.refcount| == |a.store.pool.refcount|
    ensures Isolated(a.store, a.caches[id], s', c, Others(a, id))
  {
    hide AllHeld, Others, P.Exact, SameOn, Shaped;
    assert multiset(c.table.blocks) + AllHeld(a) == AllHeld(a) + multiset(c.table.blocks);
  }

  lemma BoundaryMidway(bs: nat, c: Cache, h: Hist, others: multiset<Block>)
    requires bs > 0 && Boundary(c, h) && |h| > 0
    ensures Midway(bs, c, h, others)
  {
  }

  /** With the number of parked blocks as the count, coming back is admission and nothing else; with the
      number of KV heads, as shipped, it also needs that to be the number of blocks, or one block. */
  lemma SwapInCounts(a: Arena, hs: seq<Hist>, id: nat, kvOf: Oracle, record: Record, h: Hist, n: nat, heads: nat)
    requires Inv(a, hs, kvOf) && id < |a.caches| && a.caches[id].table == EMPTY_TABLE && heads > 0
    requires a.store.pool.blockSize > 0 && Parked(record, h, a.store.pool.blockSize, n) && |h| == |a.store.kv| > 0
    ensures SwapIn(a.store, record, n).result.Ok? <==> n <= |a.store.pool.free|
    ensures SwapIn(a.store, record, heads).result.Ok? <==> heads <= |a.store.pool.free| && (n == heads || n == 1)
  {
    hide SwapIn, Inv, Parked;
    SwapInExact(a, hs, id, kvOf, record, h, n, n);
    SwapInExact(a, hs, id, kvOf, record, h, n, heads);
  }

  // -------------------------------------------------------------------------- the round trip

  ghost predicate SameSizes(a: Arena, a': Arena) {
    SamePool(a.store.pool, a'.store.pool) && |a'.store.kv| == |a.store.kv|
  }

  lemma {:induction false} EvictShape(p: P.Pool, entries: seq<Entry>, maxBlocks: nat)
    ensures SamePool(p, Evict(p, entries, maxBlocks).pool)
    decreases |entries|
  {
    if |entries| >= maxBlocks && entries != [] {
      FreeShape(p, [entries[0].block]);
      var o := P.Free(p, [entries[0].block]);
      if o.result.Ok? {
        EvictShape(o.pool, entries[1..], maxBlocks);
      }
    }
  }

  lemma {:induction false} RegisterShape(p: P.Pool, entries: seq<Entry>, maxBlocks: nat, hashes: seq<Hash>, blocks: seq<Block>, i: nat)
    ensures SamePool(p, RegisterFrom(p, entries, maxBlocks, hashes, blocks, i).pool)
    decreases |hashes| - i
  {
    hide P.Incref, Evict, Find;
    if i < |hashes| {
      if i >= |blocks| || Contains(entries, hashes[i]) {
        RegisterShape(p, entries, maxBlocks, hashes, blocks, i + 1);
      } else {
        EvictShape(p, entries, maxBlocks);
        var e := Evict(p, entries, maxBlocks);
        P.IncrefShape(e.pool, [blocks[i]]);
        RegisterShape(P.Incref(e.pool, [blocks[i]]).pool, e.entries + [Entry(hashes[i], blocks[i])], maxBlocks, hashes, blocks, i + 1);
      }
    }
  }

  lemma {:induction false} ClearShape(p: P.Pool, entries: seq<Entry>)
    ensures SamePool(p, Prefixes.Clear(p, entries).pool)
    decreases |entries|
  {
    if entries != [] {
      FreeShape(p, [entries[0].block]);
      var o := P.Free(p, [entries[0].block]);
      if o.result.Ok? {
        ClearShape(o.pool, entries[1..]);
      }
    }
  }

  lemma {:induction false} UnshareRangeLayers(s: Store, c: Cache, k: nat, last: int)
    ensures |UnshareRange(s, c, k, last).store.kv| == |s.kv|
    decreases last + 1 - k
  {
    if k <= last {
      var o := Unshare(s.pool, c.table, k);
      if o.result.Ok? {
        match o.result.value
        case None => UnshareRangeLayers(s.(pool := o.pool), c.(table := o.table), k + 1, last);
        case Some((old_, new_)) =>
          UnshareRangeLayers(Store(o.pool, CopyBlock(s.kv, old_, new_)), c.(table := o.table), k + 1, last);
      }
    }
  }

  lemma UpdateLayers(s: Store, c: Cache, layer: nat, xs: seq<KV>)
    requires s.pool.blockSize > 0 && c.firstLayer <= layer
    ensures |Paging.Update(s, c, layer, xs).store.kv| == |s.kv|
  {
    hide UnshareRange, Write, Gather, CopyBlock;
    var o := Append(s.pool, c.table, |xs|);
    var start := c.table.numTokens;
    UnshareRangeLayers(s.(pool := o.pool), c.(pending := |xs|, table := o.table), Div(start, s.pool.blockSize), Div(start + |xs| - 1, s.pool.blockSize));
  }

  lemma CallSizes(a: Arena, op: Op)
    ensures SameSizes(a, Call(a, op).arena)
  {
    if InReach(a, op) {
      DoSizes(a, op);
    }
  }

  /** The handle exists and the layer is one of its own. */
  predicate InReach(a: Arena, op: Op) {
    && a.store.pool.blockSize > 0
    && ((op.Ensure? || op.Update? || op.Fork? || op.Free? || op.Register?) ==> op.id < |a.caches|)
    && (op.Update? ==> a.caches[op.id].firstLayer <= op.layer)
  }

  lemma DoSizes(a: Arena, op: Op)
    requires InReach(a, op)
    ensures SameSizes(a, Do(a, op).arena)
  {
    match op
    case Update(id, layer, xs) =>
      CallShape(a, op);
      UpdateLayers(a.store, a.caches[id], layer, xs);
    case Fork(id) => P.IncrefShape(a.store.pool, a.caches[id].table.blocks);
    case Register(id, tokens) =>
      RegisterShape(a.store.pool, a.entries, a.maxBlocks, BlockHashes(tokens, a.store.pool.blockSize), a.caches[id].table.blocks, 0);
    case Adopt(tokens, first) =>
      P.IncrefShape(a.store.pool, Match(a.entries, BlockHashes(tokens, a.store.pool.blockSize)).blocks);
    case Clear => ClearShape(a.store.pool, a.entries);
    case New(_) =>
    case Ensure(id, n) => CallShape(a, op);
    case Free(id) => CallShape(a, op);
  }

  lemma {:induction false} RunSizes(a: Arena, os: seq<Owner>, ops: seq<Op>, kvOf: Oracle)
    requires Permitted(a, os, ops, kvOf)
    ensures SameSizes(a, Run(a, os, ops, kvOf).arena)
    decreases |ops|
  {
    hide Abstract, Call, Enabled;
    if ops != [] {
      CallSizes(a, ops[0]);
      RunSizes(Call(a, ops[0]).arena, Abstract(a, os, ops[0], kvOf), ops[1..], kvOf);
    }
  }

  /** Swap out; let everybody else do whatever they like, over the blocks given up; swap in with the
      number of parked blocks. If that many blocks are free the sequence has its history back at every
      layer, in blocks nobody else refers to; and everybody else has theirs. */
  lemma SwapRoundTrip(a: Arena, os: seq<Owner>, id: nat, a1: Arena, os1: seq<Owner>, ops: seq<Op>, kvOf: Oracle)
    requires a.store.pool.blockSize > 0 && Tracked(a, os, kvOf) && id < |os| == |a.caches| && Between(os[id])
    requires a1 == Call(a, Free(id)).arena && os1 == Abstract(a, os, Free(id), kvOf)
    requires Permitted(a1, os1, ops, kvOf)
    ensures var c := a.caches[id];
      var record := SwapOut(a.store, c.table.blocks, c.table.numTokens).result;
      var later := Run(a1, os1, ops, kvOf);
      var a2 := later.arena.(caches := later.arena.caches + [Cache(EMPTY_TABLE, 0, c.firstLayer)]);
      && record.Ok?
      && var o := SwapIn(a2.store, record.value, |c.table.blocks|);
      && (o.result.Ok? <==> |c.table.blocks| <= |later.arena.store.pool.free|)
      && (o.result.Ok? ==>
            && (forall b :: b in o.result.value.0 ==> AllHeld(a2)[b] == 0)
            && Tracked(Seat(a2, |later.arena.caches|, o.store, Cache(Table(o.result.value.0, o.result.value.1), 0, c.firstLayer)),
                       later.owners + [os[id].(pending := 0)], kvOf))
  {
    hide Inv, Boundary, Between, Permitted, Run, Parked, SwapIn, SwapOut, AllHeld;
    TrackedFacts(a, os, kvOf);
    SwapOutParks(a, Hists(os), id, kvOf);
    var c := a.caches[id];
    ArenaSizes(a, Hists(os), id, kvOf);
    StepRefines(a, os, Free(id), kvOf);
    RunRefines(a1, os1, ops, kvOf);
    RunSizes(a1, os1, ops, kvOf);
    var later := Run(a1, os1, ops, kvOf);
    var hs := Hists(later.owners);
    Newborn(later.arena, hs, c.firstLayer, kvOf);
    var a2 := later.arena.(caches := later.arena.caches + [Cache(EMPTY_TABLE, 0, c.firstLayer)]);
    var hs2 := hs + [NoHist(|later.arena.store.kv|)];
    var j := |later.arena.caches|;
    var record := SwapOut(a.store, c.table.blocks, c.table.numTokens).result.value;
    SwapInExact(a2, hs2, j, kvOf, record, os[id].hist, |c.table.blocks|, |c.table.blocks|);
    HistsPush(later.owners, os[id].(pending := 0));
    assert hs2[j := os[id].hist] == hs + [os[id].hist];
    var o := SwapIn(a2.store, record, |c.table.blocks|);
    if o.result.Ok? {
      var c2 := Cache(Table(o.result.value.0, o.result.value.1), 0, c.firstLayer);
      var a3 := Seat(a2, j, o.store, c2);
      assert a3.caches == later.arena.caches + [c2];
      assert Agrees(a3, later.owners + [os[id].(pending := 0)]);
    }
  }

  lemma ArenaSizes(a: Arena, hs: seq<Hist>, id: nat, kvOf: Oracle)
    requires Inv(a, hs, kvOf) && id < |a.caches|
    ensures |hs| == |a.caches| && |hs[id]| == |a.store.kv| > 0 && a.store.pool.blockSize > 0
    ensures SameSizes(a, Do(a, Free(id)).arena)
  {
    hide Inv;
    InvHeld(a, hs, kvOf, id);
    FreeStep(a, hs, id, kvOf);
  }

  lemma Newborn(a: Arena, hs: seq<Hist>, firstLayer: nat, kvOf: Oracle)
    requires Inv(a, hs, kvOf)
    ensures a.store.pool.blockSize > 0 && |hs| == |a.caches|
    ensures Inv(a.(caches := a.caches + [Cache(EMPTY_TABLE, 0, firstLayer)]), hs + [NoHist(|a.store.kv|)], kvOf)
  {
    NewStep(a, hs, firstLayer, kvOf);
  }
}
