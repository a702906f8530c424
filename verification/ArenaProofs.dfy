/** Whole-arena theorems: paged storage refines private histories, reference counts are exact in
    every reachable state, and cached prefixes stay sound, under every interleaving. */
module ArenaProofs {
  import opened Common
  import opened Tensors
  import opened Paging
  import opened PagingProofs
  import opened WriteCosts
  import opened Prefixes
  import opened PrefixProofs
  import opened Arenas
  import P = Pools

  type Oracle = (nat, seq<Token>) -> KV

  /** Between forwards: every layer holds all the tokens the table claims. */
  ghost predicate Boundary(c: Cache, h: Hist) {
    forall l :: 0 <= l < |h| ==> |h[l]| == c.table.numTokens
  }

  /** Inside a forward: the first layer is done, each other layer either is too or still lacks the
      pending tokens, and the blocks those tokens go to are this sequence's alone. */
  ghost predicate InFlight(bs: nat, c: Cache, h: Hist, others: multiset<Block>)
    requires bs > 0
  {
    && |h| > 0 && |h[0]| == c.table.numTokens && c.pending <= c.table.numTokens
    && (forall l :: 0 <= l < |h| ==> |h[l]| == c.table.numTokens || |h[l]| + c.pending == c.table.numTokens)
    && Private(bs, c, others, c.table.numTokens - c.pending, c.pending)
  }

  /** The third case is a forward that an exception cut short before its first layer was written. */
  ghost predicate Midway(bs: nat, c: Cache, h: Hist, others: multiset<Block>)
    requires bs > 0
  {
    |h| > 0 && (Boundary(c, h) || InFlight(bs, c, h, others) || |h[0]| < c.table.numTokens)
  }

  ghost predicate Tenant(a: Arena, id: nat, h: Hist)
    requires id < |a.caches| && a.store.pool.blockSize > 0
  {
    Rep(a.store, a.caches[id], h) && Midway(a.store.pool.blockSize, a.caches[id], h, Others(a, id))
  }

  ghost predicate CacheInv(a: Arena, kvOf: Oracle) {
    && Distinct(Keys(a.entries)) && |a.entries| <= a.maxBlocks
    && Sound(a.store.kv, a.store.pool.blockSize, a.entries, kvOf)
  }

  ghost predicate Inv(a: Arena, hs: seq<Hist>, kvOf: Oracle) {
    && Shaped(a.store) && |a.store.kv| > 0 && |hs| == |a.caches|
    && P.Exact(a.store.pool, AllHeld(a))
    && CacheInv(a, kvOf)
    && forall id :: 0 <= id < |a.caches| ==> Tenant(a, id, hs[id])
  }

  // ---------------------------------------------------------------------- one tenant moves

  lemma InvHeld(a: Arena, hs: seq<Hist>, kvOf: Oracle, id: nat)
    requires Inv(a, hs, kvOf) && id < |a.caches|
    ensures a.store.pool.blockSize > 0 && |a.store.kv| > 0 && |hs| == |a.caches|
    ensures Held(a.store, a.caches[id], Others(a, id)) && Tenant(a, id, hs[id]) && |hs[id]| == |a.store.kv|
  {
    hide P.Exact, Midway, CacheInv, Others, AllHeld;
    OthersFacts(a, id);
  }

  lemma InFlightKept(bs: nat, c: Cache, h: Hist, others: multiset<Block>, others': multiset<Block>)
    requires bs > 0 && Midway(bs, c, h, others)
    requires !Boundary(c, h) ==> forall b :: b in Bag(c) && (Bag(c) + others)[b] == 1 ==> (Bag(c) + others')[b] == 1
    ensures Midway(bs, c, h, others')
  {
    if InFlight(bs, c, h, others) && !Boundary(c, h) {
      PrivateKept(bs, c, others, others', c.table.numTokens - c.pending, c.pending);
    }
  }

  lemma PrivateKept(bs: nat, c: Cache, others: multiset<Block>, others': multiset<Block>, start: nat, n: nat)
    requires bs > 0 && Private(bs, c, others, start, n)
    requires forall b :: b in Bag(c) && (Bag(c) + others)[b] == 1 ==> (Bag(c) + others')[b] == 1
    ensures Private(bs, c, others', start, n)
  {
    if n > 0 {
      forall k | start / bs <= k <= (start + n - 1) / bs
        ensures Alone(c, others', k)
      {
        assert Alone(c, others, k);
        var b := c.table.blocks[k];
        assert b in Bag(c) && (Bag(c) + others)[b] == 1;
      }
    }
  }

  /** A block somebody else alone refers to is still theirs alone after an isolated move. */
  lemma StaysAlone(mine: multiset<Block>, mine': multiset<Block>, others: multiset<Block>, theirs: multiset<Block>)
    requires theirs <= others
    requires forall b :: b in others ==> mine'[b] <= mine[b]
    ensures forall b :: b in theirs && (mine + others)[b] == 1 ==> (mine' + others)[b] == 1
  {
  }

  lemma TenantStays(a: Arena, id: nat, s': Store, c': Cache, j: nat, h: Hist)
    requires id < |a.caches| && j < |a.caches| && j != id && a.store.pool.blockSize > 0
    requires Tenant(a, j, h) && Isolated(a.store, a.caches[id], s', c', Others(a, id))
    ensures s'.pool.blockSize > 0 && Tenant(Seat(a, id, s', c'), j, h)
  {
    hide Held, SameOn, Rep, Midway, Bag, AllHeld, Others;
    var a' := Seat(a, id, s', c');
    OthersFacts(a, id);
    OthersFacts(a, j);
    OthersFacts(a', j);
    OthersAfter(a, id, s', c');
    BagIs(a.caches[j]);
    RepFrame(a.store, s', a.caches[j], h, Others(a, id));
    assert forall b :: b in Others(a, id) ==> Bag(c')[b] <= Bag(a.caches[id])[b] by {
      BagIs(a.caches[id]);
      BagIs(c');
    }
    StaysAlone(Bag(a.caches[id]), Bag(c'), Others(a, id), Bag(a.caches[j]));
    InFlightKept(a.store.pool.blockSize, a.caches[j], h, Others(a, j), Others(a', j));
  }

  lemma BagIs(c: Cache)
    ensures Bag(c) == multiset(c.table.blocks)
  {
  }

  lemma SoundStays(kv: seq<Layer>, kv': seq<Layer>, bs: nat, entries: seq<Entry>, held: multiset<Block>, kvOf: Oracle)
    requires Sound(kv, bs, entries, kvOf) && SameOn(kv, kv', held) && Refs(entries) <= held
    ensures Sound(kv', bs, entries, kvOf)
  {
    hide BlockKV;
    forall i | 0 <= i < |entries| ensures SoundEntry(kv', bs, entries[i], kvOf) {
      EntryHeld(entries, entries[i]);
      assert SoundEntry(kv, bs, entries[i], kvOf);
    }
  }

  /** No write ever lands in a cached block, and no write lands in another tenant's: whatever one
      tenant does in isolation, the whole arena's invariant survives. */
  lemma ReplaceTenant(a: Arena, hs: seq<Hist>, kvOf: Oracle, id: nat, s': Store, c': Cache, h': Hist)
    requires Inv(a, hs, kvOf) && id < |a.caches| && a.store.pool.blockSize > 0
    requires Isolated(a.store, a.caches[id], s', c', Others(a, id))
    requires Rep(s', c', h') && Midway(a.store.pool.blockSize, c', h', Others(a, id))
    ensures Inv(Seat(a, id, s', c'), hs[id := h'], kvOf)
  {
    hide Rep, Midway, P.Exact, Bag, AllHeld, Others, NoGrab, SameOn, Sound;
    var a' := Seat(a, id, s', c');
    OthersFacts(a, id);
    OthersAfter(a, id, s', c');
    BagIs(c');
    SoundStays(a.store.kv, s'.kv, a.store.pool.blockSize, a.entries, Others(a, id), kvOf);
    SameLayers(a.store.kv, s'.kv, Others(a, id));
    var hs' := hs[id := h'];
    forall j | 0 <= j < |a'.caches| ensures Tenant(a', j, hs'[j]) {
      if j != id {
        TenantStays(a, id, s', c', j, hs[j]);
      }
    }
  }

  lemma SameLayers(kv: seq<Layer>, kv': seq<Layer>, held: multiset<Block>)
    requires SameOn(kv, kv', held)
    ensures |kv| == |kv'|
  {
  }

  // ------------------------------------------------------- counts change, nobody's data does

  lemma TenantKept(a: Arena, a': Arena, j: nat, h: Hist)
    requires j < |a.caches| <= |a'.caches| && a'.caches[j] == a.caches[j]
    requires a.store.pool.blockSize > 0 && a'.store == a.store.(pool := a'.store.pool)
    requires a'.store.pool.blockSize == a.store.pool.blockSize
    requires Tenant(a, j, h)
    requires !Boundary(a.caches[j], h) ==>
      forall b :: b in Bag(a.caches[j]) && AllHeld(a)[b] == 1 ==> AllHeld(a')[b] == 1
    ensures Tenant(a', j, h)
  {
    hide Midway, Bag, AllHeld, Others, Flat;
    OthersFacts(a, j);
    OthersFacts(a', j);
    InFlightKept(a.store.pool.blockSize, a.caches[j], h, Others(a, j), Others(a', j));
  }

  /** Whoever is inside a forward keeps private blocks private. */
  ghost predicate KeepsPrivate(a: Arena, a': Arena, hs: seq<Hist>)
    requires |hs| == |a.caches|
  {
    forall j, b :: 0 <= j < |a.caches| && !Boundary(a.caches[j], hs[j]) && b in Bag(a.caches[j]) && AllHeld(a)[b] == 1
      ==> AllHeld(a')[b] == 1
  }

  /** An operation that only moves references, and perhaps starts one more tenant. */
  lemma MoveReferences(a: Arena, a': Arena, hs: seq<Hist>, hs': seq<Hist>, kvOf: Oracle)
    requires Inv(a, hs, kvOf)
    requires a'.store == a.store.(pool := a'.store.pool) && a'.maxBlocks == a.maxBlocks
    requires a'.store.pool.blockSize == a.store.pool.blockSize && |a'.store.pool.refcount| == |a.store.pool.refcount|
    requires P.Exact(a'.store.pool, AllHeld(a')) && CacheInv(a', kvOf)
    requires KeepsPrivate(a, a', hs)
    requires a.caches <= a'.caches && hs <= hs' && |hs'| == |a'.caches| <= |a.caches| + 1
    requires |a'.caches| > |a.caches| ==>
      Rep(a'.store, a'.caches[|a.caches|], hs'[|a.caches|]) && Boundary(a'.caches[|a.caches|], hs'[|a.caches|])
    ensures Inv(a', hs', kvOf)
  {
    hide Rep, Midway, P.Exact, Bag, AllHeld, Others, CacheInv, Boundary;
    assert a.store.pool.blockSize > 0;
    forall j | 0 <= j < |a'.caches| ensures Tenant(a', j, hs'[j]) {
      if j < |a.caches| {
        assert Tenant(a, j, hs[j]);
        TenantKept(a, a', j, hs[j]);
      } else {
        StartsAtBoundary(a', j, hs'[j]);
      }
    }
  }

  lemma StartsAtBoundary(a: Arena, id: nat, h: Hist)
    requires id < |a.caches| && a.store.pool.blockSize > 0 && |a.store.kv| > 0
    requires Rep(a.store, a.caches[id], h) && Boundary(a.caches[id], h)
    ensures Tenant(a, id, h)
  {
  }

  // ------------------------------------------------------------------------ every operation

  /** The sequence stands between two forwards and its history is the KV of the tokens. */
  ghost predicate Registrable(a: Arena, hs: seq<Hist>, id: nat, tokens: seq<Token>, kvOf: Oracle) {
    |hs| == |a.caches| && id < |a.caches| && Boundary(a.caches[id], hs[id]) && HistIs(hs[id], tokens, kvOf)
  }

  ghost function NoHist(layers: nat): (h: Hist)
    ensures |h| == layers && forall l :: 0 <= l < layers ==> h[l] == []
  {
    seq(layers, l => [])
  }

  /** Only tenant `id` and the shared buffers changed, and not in shape. */
  ghost predicate OnlyMoved(a: Arena, a': Arena, id: nat)
    requires id < |a.caches|
  {
    && |a'.caches| == |a.caches| && a'.caches == a.caches[id := a'.caches[id]]
    && a'.caches[id].firstLayer == a.caches[id].firstLayer
    && a'.entries == a.entries && a'.maxBlocks == a.maxBlocks
    && |a'.store.kv| == |a.store.kv| && a'.store.pool.blockSize == a.store.pool.blockSize
    && |a'.store.pool.refcount| == |a.store.pool.refcount|
  }

  lemma MovedShape(a: Arena, id: nat, s': Store, c': Cache)
    requires id < |a.caches| && Isolated(a.store, a.caches[id], s', c', Others(a, id))
    ensures OnlyMoved(a, Seat(a, id, s', c'), id)
  {
  }

  lemma NewStep(a: Arena, hs: seq<Hist>, firstLayer: nat, kvOf: Oracle)
    requires Inv(a, hs, kvOf)
    ensures var d := Do(a, New(firstLayer));
      && Inv(d.arena, hs + [NoHist(|a.store.kv|)], kvOf) && d.result == Ok([])
      && d.arena.caches == a.caches + [Cache(EMPTY_TABLE, 0, firstLayer)]
  {
    hide P.Exact, AllHeld, CacheInv, Midway;
    var a', c := Do(a, New(firstLayer)).arena, Cache(EMPTY_TABLE, 0, firstLayer);
    NewHolds(a, c);
    assert a'.caches == a.caches + [c];
    SameHeld(a, a', hs);
    CacheInvKept(a, a', hs, kvOf);
    MoveReferences(a, a', hs, hs + [NoHist(|a.store.kv|)], kvOf);
  }

  /** An empty table holds nothing. */
  lemma NewHolds(a: Arena, c: Cache)
    requires c.table == EMPTY_TABLE
    ensures AllHeld(a.(caches := a.caches + [c])) == AllHeld(a)
  {
    HeldPush(a.caches, c);
    assert Bag(c) == multiset{};
  }

  lemma SameHeld(a: Arena, a': Arena, hs: seq<Hist>)
    requires |hs| == |a.caches| && AllHeld(a') == AllHeld(a)
    ensures KeepsPrivate(a, a', hs)
  {
    hide AllHeld, Bag, Boundary;
  }

  lemma EnsureStep(a: Arena, hs: seq<Hist>, id: nat, n: nat, kvOf: Oracle)
    requires Inv(a, hs, kvOf) && id < |a.caches|
    ensures a.store.pool.blockSize > 0
    ensures var d := Do(a, Ensure(id, n));
      && Inv(d.arena, hs, kvOf) && OnlyMoved(a, d.arena, id)
      && (d.result.Err? ==> d.result.error == OutOfBlocks && d.arena.store.pool == a.store.pool && d.arena.caches == a.caches)
      && (d.result.Ok? <==> CeilDiv(n, a.store.pool.blockSize) <= |a.caches[id].table.blocks| + |a.store.pool.free|)
      && (d.result.Ok? ==> |d.arena.caches[id].table.blocks| == Max(|a.caches[id].table.blocks|, CeilDiv(n, a.store.pool.blockSize)))
      && d.arena.caches[id].table.numTokens == a.caches[id].table.numTokens
      && d.arena.caches[id].pending == a.caches[id].pending
      && d.arena.store.kv == a.store.kv
  {
    hide Inv, Isolated, Held, Rep, Bag, AllHeld, Others, Midway;
    InvHeld(a, hs, kvOf, id);
    var c := a.caches[id];
    var o := EnsureCapacity(a.store.pool, c.table, n);
    EnsureCorrect(a.store, c, Others(a, id), n, hs[id]);
    MidwayGrows(a.store.pool.blockSize, c, c.(table := o.table), hs[id], Others(a, id));
    ReplaceTenant(a, hs, kvOf, id, a.store.(pool := o.pool), c.(table := o.table), hs[id]);
    MovedShape(a, id, a.store.(pool := o.pool), c.(table := o.table));
    assert hs[id := hs[id]] == hs;
  }

  /** Growing a table adds blocks at the end, so a forward in flight keeps its write range. */
  lemma MidwayGrows(bs: nat, c: Cache, c': Cache, h: Hist, others: multiset<Block>)
    requires bs > 0 && Midway(bs, c, h, others)
    requires c'.pending == c.pending && c'.table.numTokens == c.table.numTokens
    requires c.table.blocks <= c'.table.blocks
    requires forall b :: b in c.table.blocks ==> multiset(c'.table.blocks)[b] == multiset(c.table.blocks)[b]
    ensures Midway(bs, c', h, others)
  {
    if InFlight(bs, c, h, others) && !Boundary(c, h) && c.pending > 0 {
      var start, n := c.table.numTokens - c.pending, c.pending;
      forall k | start / bs <= k <= (start + n - 1) / bs ensures Alone(c', others, k) {
        assert Alone(c, others, k);
        assert c.table.blocks[k] in c.table.blocks && c'.table.blocks[k] == c.table.blocks[k];
      }
      assert Private(bs, c', others, start, n);
    }
  }

  lemma FreeStep(a: Arena, hs: seq<Hist>, id: nat, kvOf: Oracle)
    requires Inv(a, hs, kvOf) && id < |a.caches|
    ensures var d := Do(a, Free(id));
      && Inv(d.arena, hs[id := NoHist(|a.store.kv|)], kvOf) && d.result == Ok([]) && OnlyMoved(a, d.arena, id)
      && d.arena.caches[id] == a.caches[id].(table := EMPTY_TABLE)
  {
    hide Inv, Isolated, Held, Bag, AllHeld, Others, FreeTable, Rep, Midway;
    InvHeld(a, hs, kvOf, id);
    var c := a.caches[id];
    FreeCorrect(a.store, c, Others(a, id));
    var s' := a.store.(pool := FreeTable(a.store.pool, c.table).pool);
    var c' := c.(table := EMPTY_TABLE);
    EmptyTenant(s', c', Others(a, id));
    ReplaceTenant(a, hs, kvOf, id, s', c', NoHist(|a.store.kv|));
    MovedShape(a, id, s', c');
  }

  lemma EmptyTenant(s: Store, c: Cache, others: multiset<Block>)
    requires c.table == EMPTY_TABLE && |s.kv| > 0
    ensures Rep(s, c, NoHist(|s.kv|))
    ensures s.pool.blockSize > 0 ==> Midway(s.pool.blockSize, c, NoHist(|s.kv|), others)
  {
  }

  lemma FirstLayerStep(a: Arena, hs: seq<Hist>, id: nat, xs: seq<KV>, kvOf: Oracle)
    requires Inv(a, hs, kvOf) && id < |a.caches|
    requires Boundary(a.caches[id], hs[id])
    ensures |a.store.kv| > 0 && |hs[id]| == |a.store.kv|
    ensures a.store.pool.blockSize > 0
    ensures var d := Do(a, Update(id, a.caches[id].firstLayer, xs));
      var free, missing := |a.store.pool.free|, Missing(a.caches[id].table, a.store.pool.blockSize, |xs|);
      var splits := Splits(AllHeld(a), RangeBlocks(a.caches[id].table, a.store.pool.blockSize, |xs|));
      && OnlyMoved(a, d.arena, id)
      && (d.result.Ok? <==> missing + splits <= free)
      && (d.result.Ok? ==> |d.arena.store.pool.free| + missing + splits == free)
      && (d.result.Ok? ==> GivenUp(AllHeld(a), RangeBlocks(a.caches[id].table, a.store.pool.blockSize, |xs|), AllHeld(d.arena)))
      && d.arena.caches[id].table.numTokens == a.caches[id].table.numTokens + (if missing <= free then |xs| else 0)
      && d.arena.caches[id].pending == |xs|
      && (d.result.Ok? ==>
            d.result.value == hs[id][0] + xs && Inv(d.arena, hs[id := hs[id][0 := hs[id][0] + xs]], kvOf))
      && (d.result.Err? ==> d.result.error == OutOfBlocks && Inv(d.arena, hs, kvOf))
  {
    hide Inv, Isolated, Held, Rep, Bag, AllHeld, Others, Private, Paging.Update, Missing, Splits, RangeBlocks, GivenUp;
    InvHeld(a, hs, kvOf, id);
    var c, h := a.caches[id], hs[id];
    var others := Others(a, id);
    OthersFacts(a, id);
    BagIs(c);
    OthersAfter(a, id, Paging.Update(a.store, c, c.firstLayer, xs).store, Paging.Update(a.store, c, c.firstLayer, xs).cache);
    BagIs(Paging.Update(a.store, c, c.firstLayer, xs).cache);
    FirstUpdateCorrect(a.store, c, others, xs, h);
    FirstUpdateBroken(a.store, c, others, xs, h);
    var o := Paging.Update(a.store, c, c.firstLayer, xs);
    MovedShape(a, id, o.store, o.cache);
    if o.result.Ok? {
      ReplaceTenant(a, hs, kvOf, id, o.store, o.cache, h[0 := h[0] + xs]);
    } else {
      ReplaceTenant(a, hs, kvOf, id, o.store, o.cache, h);
      assert hs[id := h] == hs;
    }
  }

  /** A first-layer update that runs out of blocks either changed no length, or left a forward that
      never wrote its first layer. */
  lemma FirstUpdateBroken(s: Store, c: Cache, others: multiset<Block>, xs: seq<KV>, h: Hist)
    requires s.pool.blockSize > 0 && Held(s, c, others) && Rep(s, c, h) && |s.kv| == |h| > 0
    requires Boundary(c, h)
    ensures var o := Paging.Update(s, c, c.firstLayer, xs);
      o.result.Err? ==> Boundary(o.cache, h) || |h[0]| < o.cache.table.numTokens
  {
    hide Held, Rep, Isolated, Private, Begin, Write, Gather;
    BeginCorrect(s, c, others, |xs|, h);
    IsolatedShape(s, c, Begin(s, c, |xs|).store, Begin(s, c, |xs|).cache, others);
  }

  lemma LaterLayerStep(a: Arena, hs: seq<Hist>, id: nat, layer: nat, xs: seq<KV>, kvOf: Oracle)
    requires Inv(a, hs, kvOf) && id < |a.caches| && |hs| == |a.caches| && |hs[id]| == |a.store.kv|
    requires a.caches[id].firstLayer < layer < a.caches[id].firstLayer + |a.store.kv|
    requires |hs[id][0]| == a.caches[id].table.numTokens && |xs| == a.caches[id].pending <= a.caches[id].table.numTokens
    requires |hs[id][layer - a.caches[id].firstLayer]| + a.caches[id].pending == a.caches[id].table.numTokens
    ensures var d := Do(a, Update(id, layer, xs));
      var l := layer - a.caches[id].firstLayer;
      && d.result == Ok(hs[id][l] + xs)
      && OnlyMoved(a, d.arena, id) && d.arena.caches[id] == a.caches[id] && d.arena.store.pool == a.store.pool
      && Inv(d.arena, hs[id := hs[id][l := hs[id][l] + xs]], kvOf)
  {
    hide Inv, Isolated, Held, Rep, Bag, AllHeld, Others, Private, Paging.Update;
    InvHeld(a, hs, kvOf, id);
    var c, h := a.caches[id], hs[id];
    var others := Others(a, id);
    var l := layer - c.firstLayer;
    if !InFlight(a.store.pool.blockSize, c, h, others) {
      EmptyPrivate(a.store.pool.blockSize, c, others, c.table.numTokens);
    }
    LaterUpdateCorrect(a.store, c, others, layer, xs, h);
    var o := Paging.Update(a.store, c, layer, xs);
    ReplaceTenant(a, hs, kvOf, id, o.store, o.cache, h[l := h[l] + xs]);
    MovedShape(a, id, o.store, o.cache);
  }

  lemma EmptyPrivate(bs: nat, c: Cache, others: multiset<Block>, start: nat)
    requires bs > 0
    ensures Private(bs, c, others, start, 0)
  {
  }

  lemma ForkStep(a: Arena, hs: seq<Hist>, id: nat, kvOf: Oracle)
    requires Inv(a, hs, kvOf) && id < |a.caches| && Boundary(a.caches[id], hs[id])
    ensures var d := Do(a, Fork(id));
      && Inv(d.arena, hs + [hs[id]], kvOf) && d.result == Ok([])
      && d.arena.caches == a.caches + [a.caches[id].(pending := 0)]
  {
    hide Inv, Held, Rep, AllHeld, Others, CacheInv, P.Exact, ForkTable;
    InvHeld(a, hs, kvOf, id);
    var c := a.caches[id];
    var a' := Do(a, Fork(id)).arena;
    var child := Cache(c.table, 0, c.firstLayer);
    ForkCorrect(a.store, c, Others(a, id), hs[id]);
    PushHeld(a, a', child);
    OthersFacts(a, id);
    HeldExact(a'.store, c, Bag(c) + Others(a, id));
    assert AllHeld(a') == Bag(c) + (Bag(c) + Others(a, id));
    forall j, b | 0 <= j < |a.caches| && !Boundary(a.caches[j], hs[j]) && b in Bag(a.caches[j]) && AllHeld(a)[b] == 1
      ensures AllHeld(a')[b] == 1
    {
      assert j != id;
      assert b !in Bag(c) by { assert Bag(a.caches[j]) <= Others(a, id); }
    }
    CacheInvKept(a, a', hs, kvOf);
    SameRep(a.store, a'.store, c, child, hs[id]);
    MoveReferences(a, a', hs, hs + [hs[id]], kvOf);
  }

  lemma PushHeld(a: Arena, a': Arena, c: Cache)
    requires a'.caches == a.caches + [c] && a'.entries == a.entries
    ensures AllHeld(a') == AllHeld(a) + Bag(c)
  {
    HeldPush(a.caches, c);
  }

  lemma HeldExact(s: Store, c: Cache, others: multiset<Block>)
    requires Held(s, c, others)
    ensures P.Exact(s.pool, Bag(c) + others)
  {
  }

  lemma CacheInvKept(a: Arena, a': Arena, hs: seq<Hist>, kvOf: Oracle)
    requires Inv(a, hs, kvOf) && a'.entries == a.entries && a'.maxBlocks == a.maxBlocks
    requires a'.store.kv == a.store.kv && a'.store.pool.blockSize == a.store.pool.blockSize
    ensures CacheInv(a', kvOf)
  {
    hide Tenant, Sound;
  }

  lemma SameRep(s: Store, s': Store, c: Cache, c': Cache, h: Hist)
    requires Rep(s, c, h) && c'.table == c.table && s'.kv == s.kv && s'.pool.blockSize == s.pool.blockSize
    ensures Rep(s', c', h)
  {
  }

  lemma InvCached(a: Arena, hs: seq<Hist>, kvOf: Oracle)
    requires Inv(a, hs, kvOf)
    ensures a.store.pool.blockSize > 0 && |hs| == |a.caches| && CacheInv(a, kvOf)
    ensures Cached(a.store.pool, a.entries, HeldBy(a.caches)) && |a.entries| <= a.maxBlocks
  {
    hide Tenant, Sound, P.Exact;
    assert AllHeld(a) == Refs(a.entries) + HeldBy(a.caches);
  }

  lemma CachedExact(a: Arena, others: multiset<Block>)
    requires Cached(a.store.pool, a.entries, others)
    ensures P.Exact(a.store.pool, Refs(a.entries) + others) && Distinct(Keys(a.entries))
  {
  }

  lemma HeldRefs(a: Arena)
    ensures AllHeld(a) == Refs(a.entries) + HeldBy(a.caches)
  {
  }

  lemma MemberHeld(a: Arena, j: nat)
    requires j < |a.caches|
    ensures Bag(a.caches[j]) <= HeldBy(a.caches)
  {
    HeldUpdate(a.caches, j, a.caches[j]);
  }

  lemma ClearStep(a: Arena, hs: seq<Hist>, kvOf: Oracle)
    requires Inv(a, hs, kvOf)
    ensures var d := Do(a, Clear);
      Inv(d.arena, hs, kvOf) && d.result == Ok([]) && d.arena.entries == [] && d.arena.caches == a.caches
  {
    hide Inv, Cached, AllHeld, P.Exact, Prefixes.Clear, Bag;
    InvCached(a, hs, kvOf);
    var a' := Do(a, Clear).arena;
    ClearCorrect(a.store.pool, a.entries, HeldBy(a.caches));
    HeldRefs(a);
    HeldRefs(a');
    assert Refs([]) == multiset{};
    forall j, b | 0 <= j < |a.caches| && b in Bag(a.caches[j]) && AllHeld(a)[b] == 1
      ensures AllHeld(a')[b] == 1
    {
      MemberHeld(a, j);
    }
    assert AllHeld(a') == HeldBy(a.caches);
    MoveReferences(a, a', hs, hs, kvOf);
  }

  /** The registered blocks belong to the registering sequence, so the cache only ever gains sound
      entries. */
  lemma RegisterStep(a: Arena, hs: seq<Hist>, id: nat, tokens: seq<Token>, kvOf: Oracle)
    requires Inv(a, hs, kvOf) && Registrable(a, hs, id, tokens, kvOf)
    ensures var d := Do(a, Register(id, tokens));
      Inv(d.arena, hs, kvOf) && d.result == Ok([]) && d.arena.caches == a.caches
  {
    hide Inv, Cached, AllHeld, P.Exact, Prefixes.Register, Boundary, HistIs, Sound, FromOld, Tenant;
    InvCached(a, hs, kvOf);
    InvHeld(a, hs, kvOf, id);
    var bs, blocks := a.store.pool.blockSize, a.caches[id].table.blocks;
    var hashes := BlockHashes(tokens, bs);
    var a' := Do(a, Register(id, tokens)).arena;
    MemberHeld(a, id);
    assert forall b :: b in blocks ==> b in HeldBy(a.caches);
    RegisterCorrect(a.store.pool, a.entries, a.maxBlocks, tokens, blocks, HeldBy(a.caches));
    CachedExact(a', HeldBy(a.caches));
    HeldRefs(a');
    RegisterKeepsPrivate(a, a', hs, id, hashes);
    RegisterSound(a, hs, id, tokens, a'.entries, kvOf);
    MoveReferences(a, a', hs, hs, kvOf);
  }

  lemma RegisterCorrect(p: P.Pool, entries: seq<Entry>, maxBlocks: nat, tokens: seq<Token>, blocks: seq<Block>, others: multiset<Block>)
    requires p.blockSize > 0 && Cached(p, entries, others) && |entries| <= maxBlocks
    requires forall b :: b in blocks ==> b in others
    ensures var o := Prefixes.Register(p, entries, maxBlocks, tokens, blocks);
      && o.result.Ok? && Cached(o.pool, o.entries, others)
      && |o.pool.refcount| == |p.refcount| && o.pool.blockSize == p.blockSize
      && |o.entries| <= maxBlocks
      && FromOld(o.entries, entries, BlockHashes(tokens, p.blockSize), blocks)
  {
    RegisterFromCorrect(p, entries, maxBlocks, BlockHashes(tokens, p.blockSize), blocks, 0, others);
  }

  lemma RegisterKeepsPrivate(a: Arena, a': Arena, hs: seq<Hist>, id: nat, hashes: seq<Hash>)
    requires |hs| == |a.caches| && id < |a.caches| && Boundary(a.caches[id], hs[id])
    requires a'.caches == a.caches && FromOld(a'.entries, a.entries, hashes, a.caches[id].table.blocks)
    ensures KeepsPrivate(a, a', hs)
  {
    hide Boundary, FromOld, Refs;
    HeldRefs(a);
    HeldRefs(a');
    forall j, b | 0 <= j < |a.caches| && !Boundary(a.caches[j], hs[j]) && b in Bag(a.caches[j]) && AllHeld(a)[b] == 1
      ensures AllHeld(a')[b] == 1
    {
      MemberHeld(a, j);
      HeldTwo(a.caches, id, j);
      assert b !in Refs(a.entries) && b !in Bag(a.caches[id]);
      FromOldBlocks(a'.entries, a.entries, hashes, a.caches[id].table.blocks, b);
    }
  }

  lemma FromOldBlocks(entries': seq<Entry>, entries: seq<Entry>, hashes: seq<Hash>, blocks: seq<Block>, b: Block)
    requires FromOld(entries', entries, hashes, blocks)
    requires b !in Refs(entries) && b !in multiset(blocks)
    ensures b !in Refs(entries')
  {
    if b in Refs(entries') {
      var i :| 0 <= i < |entries'| && Blocks(entries')[i] == b;
      assert entries'[i] in entries';
      if entries'[i] in entries {
        EntryHeld(entries, entries'[i]);
      }
      assert false;
    }
  }

  lemma RegisterSound(a: Arena, hs: seq<Hist>, id: nat, tokens: seq<Token>, entries': seq<Entry>, kvOf: Oracle)
    requires Inv(a, hs, kvOf) && id < |a.caches| && HistIs(hs[id], tokens, kvOf)
    requires FromOld(entries', a.entries, BlockHashes(tokens, a.store.pool.blockSize), a.caches[id].table.blocks)
    ensures Sound(a.store.kv, a.store.pool.blockSize, entries', kvOf)
  {
    InvHeld(a, hs, kvOf, id);
    hide P.Exact, SoundEntry, HistIs, Tenant, Rep;
    var bs, blocks := a.store.pool.blockSize, a.caches[id].table.blocks;
    HeldInRange(a.store, a.caches[id], Others(a, id));
    TenantRep(a, id, hs[id]);
    forall i | 0 <= i < |entries'| ensures SoundEntry(a.store.kv, bs, entries'[i], kvOf) {
      assert entries'[i] in entries';
      if entries'[i] !in a.entries {
        var hashes := BlockHashes(tokens, bs);
        var k :| 0 <= k < |hashes| && k < |blocks| && entries'[i] == Entry(hashes[k], blocks[k]);
        FullBlockSound(a.store, a.caches[id], hs[id], tokens, k, kvOf);
      }
    }
  }

  lemma TenantRep(a: Arena, id: nat, h: Hist)
    requires id < |a.caches| && a.store.pool.blockSize > 0 && Tenant(a, id, h)
    ensures Rep(a.store, a.caches[id], h)
  {
  }

  lemma ReorderedCacheInv(a: Arena, a': Arena, kvOf: Oracle)
    requires CacheInv(a, kvOf) && Distinct(Keys(a'.entries)) && |a'.entries| == |a.entries|
    requires forall e :: e in a'.entries <==> e in a.entries
    requires a'.store.kv == a.store.kv && a'.store.pool.blockSize == a.store.pool.blockSize && a'.maxBlocks == a.maxBlocks
    ensures CacheInv(a', kvOf)
  {
    hide SoundEntry;
    forall i | 0 <= i < |a'.entries|
      ensures SoundEntry(a'.store.kv, a'.store.pool.blockSize, a'.entries[i], kvOf)
    {
      assert a'.entries[i] in a'.entries;
    }
  }

  lemma AdoptedHistory(a: Arena, s': Store, c: Cache, tokens: seq<Token>, blocks: seq<Block>, kvOf: Oracle)
    requires a.store.pool.blockSize > 0 && CacheInv(a, kvOf)
    requires s'.kv == a.store.kv && s'.pool.blockSize == a.store.pool.blockSize
    requires c.table == Table(blocks, |blocks| * a.store.pool.blockSize)
    requires |blocks| <= |BlockHashes(tokens, a.store.pool.blockSize)|
    requires forall i :: 0 <= i < |blocks| ==> Entry(BlockHashes(tokens, a.store.pool.blockSize)[i], blocks[i]) in a.entries
    ensures c.table.numTokens <= |tokens|
    ensures var h := PrefixHist(kvOf, |a.store.kv|, tokens, c.table.numTokens);
      Rep(s', c, h) && Boundary(c, h)
  {
    hide SoundEntry, HashAt, PrefixKV;
    var bs := a.store.pool.blockSize;
    forall i | 0 <= i < |blocks|
      ensures SoundEntry(a.store.kv, bs, Entry(HashAt(tokens, bs, i + 1), blocks[i]), kvOf)
    {
      var e := Entry(BlockHashes(tokens, bs)[i], blocks[i]);
      var k :| 0 <= k < |a.entries| && a.entries[k] == e;
    }
    FullBlocks(|tokens|, bs, |blocks|);
    forall l | 0 <= l < |a.store.kv|
      ensures Flat(a.store.kv[l], blocks) == PrefixKV(kvOf, l, tokens, |blocks| * bs)
    {
      MatchedHistory(a.store.kv, l, bs, tokens, blocks, kvOf);
    }
  }

  /** A cached block has the cache as a holder, so it is nobody's private block. */
  lemma MatchedNotPrivate(a: Arena, hashes: seq<Hash>, blocks: seq<Block>, b: Block)
    requires |blocks| <= |hashes| && forall i :: 0 <= i < |blocks| ==> Entry(hashes[i], blocks[i]) in a.entries
    requires b in HeldBy(a.caches) && AllHeld(a)[b] == 1
    ensures multiset(blocks)[b] == 0
  {
    HeldRefs(a);
    forall i | 0 <= i < |blocks| ensures blocks[i] != b {
      EntryHeld(a.entries, Entry(hashes[i], blocks[i]));
    }
  }

  /** How many tokens of a prompt a lookup finds: those of its longest run of leading full blocks that
      are all cached. */
  ghost function CachedTokens(a: Arena, tokens: seq<Token>): (n: nat)
    requires a.store.pool.blockSize > 0
    ensures n <= |tokens|
  {
    var k := LeadingHits(a.entries, BlockHashes(tokens, a.store.pool.blockSize));
    FullBlocks(|tokens|, a.store.pool.blockSize, k);
    k * a.store.pool.blockSize
  }

  ghost function PrefixHist(kvOf: Oracle, layers: nat, tokens: seq<Token>, n: nat): (h: Hist)
    requires n <= |tokens|
    ensures |h| == layers && forall l :: 0 <= l < layers ==> h[l] == PrefixKV(kvOf, l, tokens, n)
  {
    seq(layers, l requires 0 <= l < layers => PrefixKV(kvOf, l, tokens, n))
  }

  /** A sequence built from a lookup starts with the history a prefill of the matched tokens would
      have left. */
  lemma AdoptStep(a: Arena, hs: seq<Hist>, tokens: seq<Token>, firstLayer: nat, kvOf: Oracle)
    requires Inv(a, hs, kvOf)
    ensures a.store.pool.blockSize > 0
    ensures var d, n := Do(a, Adopt(tokens, firstLayer)), CachedTokens(a, tokens);
      && d.result == Ok([]) && |d.arena.caches| == |a.caches| + 1
      && var c := d.arena.caches[|a.caches|];
      && d.arena.caches == a.caches + [c] && c == Cache(Table(c.table.blocks, n), 0, firstLayer)
      && Inv(d.arena, hs + [PrefixHist(kvOf, |a.store.kv|, tokens, n)], kvOf)
  {
    hide Inv, Cached, AllHeld, P.Exact, Lookup, Bag, HeldBy, Contains, BlockHashes, CacheInv, KeepsPrivate, Rep, Boundary, Refs, LeadingHits;
    InvCached(a, hs, kvOf);
    var bs := a.store.pool.blockSize;
    LookupCorrect(a.store.pool, a.entries, HeldBy(a.caches), tokens);
    var d := Do(a, Adopt(tokens, firstLayer));
    var a' := d.arena;
    var blocks := Lookup(a.store.pool, a.entries, tokens).result.value.0;
    LookupHits(a.entries, BlockHashes(tokens, bs), blocks);
    var c := Cache(Table(blocks, |blocks| * bs), 0, firstLayer);
    assert a'.caches == a.caches + [c];
    AdoptedExact(a, a', c);
    ReorderedCacheInv(a, a', kvOf);
    AdoptedHistory(a, a'.store, c, tokens, blocks, kvOf);
    AdoptKeepsPrivate(a, a', hs, BlockHashes(tokens, bs), c);
    MoveReferences(a, a', hs, hs + [PrefixHist(kvOf, |a.store.kv|, tokens, CachedTokens(a, tokens))], kvOf);
  }

  lemma LookupHits(entries: seq<Entry>, hashes: seq<Hash>, blocks: seq<Block>)
    requires |blocks| <= |hashes| && forall i :: 0 <= i < |blocks| ==> Entry(hashes[i], blocks[i]) in entries
    requires |blocks| < |hashes| ==> !Contains(entries, hashes[|blocks|])
    ensures |blocks| == LeadingHits(entries, hashes)
  {
    hide Contains, LeadingHits;
    forall i | 0 <= i < |blocks| ensures Contains(entries, hashes[i]) {
      ContainsMember(entries, hashes[i]);
      assert Entry(hashes[i], blocks[i]).hash == hashes[i];
    }
    HitsUnique(entries, hashes, |blocks|);
  }

  lemma AdoptedExact(a: Arena, a': Arena, c: Cache)
    requires a'.caches == a.caches + [c]
    requires Cached(a'.store.pool, a'.entries, HeldBy(a.caches) + multiset(c.table.blocks))
    ensures P.Exact(a'.store.pool, AllHeld(a')) && Distinct(Keys(a'.entries))
  {
    hide P.Exact;
    HeldPush(a.caches, c);
    HeldRefs(a');
    assert AllHeld(a') == Refs(a'.entries) + (HeldBy(a.caches) + multiset(c.table.blocks));
  }

  lemma AdoptKeepsPrivate(a: Arena, a': Arena, hs: seq<Hist>, hashes: seq<Hash>, c: Cache)
    requires |hs| == |a.caches| && a'.caches == a.caches + [c]
    requires |c.table.blocks| <= |hashes|
    requires forall i :: 0 <= i < |c.table.blocks| ==> Entry(hashes[i], c.table.blocks[i]) in a.entries
    requires |a'.entries| == |a.entries| && Refs(a'.entries) == Refs(a.entries)
    ensures KeepsPrivate(a, a', hs)
  {
    hide HeldBy, Refs, Boundary;
    HeldPush(a.caches, c);
    HeldRefs(a);
    HeldRefs(a');
    forall j, b | 0 <= j < |a.caches| && !Boundary(a.caches[j], hs[j]) && b in Bag(a.caches[j]) && AllHeld(a)[b] == 1
      ensures AllHeld(a')[b] == 1
    {
      MemberHeld(a, j);
      MatchedNotPrivate(a, hashes, c.table.blocks, b);
    }
  }

  /** With room already claimed and nothing shared, the first layer's update cannot fail and claims
      nothing. */
  lemma FirstLayerRoom(a: Arena, hs: seq<Hist>, id: nat, xs: seq<KV>, kvOf: Oracle)
    requires Inv(a, hs, kvOf) && id < |a.caches| && Boundary(a.caches[id], hs[id])
    requires a.store.pool.blockSize > 0 && Unshared(AllHeld(a))
    requires CeilDiv(a.caches[id].table.numTokens + |xs|, a.store.pool.blockSize) <= |a.caches[id].table.blocks|
    ensures var d := Do(a, Update(id, a.caches[id].firstLayer, xs));
      && d.result.Ok? && d.arena.store.pool == a.store.pool
      && d.arena.caches[id].table.blocks == a.caches[id].table.blocks
  {
    hide Inv, Isolated, Held, Rep, AllHeld, Others, Private, Paging.Update, CeilDiv;
    InvHeld(a, hs, kvOf, id);
    OthersFacts(a, id);
    BagIs(a.caches[id]);
    UpdateCannotFail(a.store, a.caches[id], Others(a, id), xs, hs[id]);
  }

  /** Growing claims exactly what is missing, and fails only when that is more than is free. */
  lemma EnsureRoom(a: Arena, hs: seq<Hist>, id: nat, n: nat, kvOf: Oracle)
    requires Inv(a, hs, kvOf) && id < |a.caches| && a.store.pool.blockSize > 0 && Unshared(AllHeld(a))
    ensures var d := Do(a, Ensure(id, n));
      var needed := CeilDiv(n, a.store.pool.blockSize);
      var blocks, blocks' := a.caches[id].table.blocks, d.arena.caches[id].table.blocks;
      && (d.result.Ok? <==> needed <= |blocks| + |a.store.pool.free|)
      && |d.arena.store.pool.free| + |blocks'| == |a.store.pool.free| + |blocks|
      && (d.result.Ok? ==> |blocks'| == Max(|blocks|, needed))
      && (d.result.Err? ==> blocks' == blocks)
      && Unshared(AllHeld(d.arena))
  {
    hide Inv, Isolated, Held, Rep, AllHeld, Others, Unshared, CeilDiv;
    InvHeld(a, hs, kvOf, id);
    OthersFacts(a, id);
    var c := a.caches[id];
    var o := EnsureCapacity(a.store.pool, c.table, n);
    BagIs(c);
    BagIs(c.(table := o.table));
    EnsureCorrect(a.store, c, Others(a, id), n, hs[id]);
    OthersAfter(a, id, a.store.(pool := o.pool), c.(table := o.table));
  }

  /** Without sharing, freeing gives back every block the table had. */
  lemma FreeRoom(a: Arena, hs: seq<Hist>, id: nat, kvOf: Oracle)
    requires Inv(a, hs, kvOf) && id < |a.caches| && a.store.pool.blockSize > 0 && Unshared(AllHeld(a))
    ensures var d := Do(a, Free(id));
      && |d.arena.store.pool.free| == |a.store.pool.free| + |a.caches[id].table.blocks|
      && Unshared(AllHeld(d.arena))
  {
    hide Inv, Isolated, Held, Rep, AllHeld, Others;
    InvHeld(a, hs, kvOf, id);
    OthersFacts(a, id);
    var c := a.caches[id];
    BagIs(c);
    FreeCorrect(a.store, c, Others(a, id));
    var o := FreeTable(a.store.pool, c.table);
    OthersAfter(a, id, a.store.(pool := o.pool), c.(table := o.table));
    assert Bag(c.(table := EMPTY_TABLE)) == multiset{};
    forall b ensures AllHeld(Do(a, Free(id)).arena)[b] <= 1 {
      assert AllHeld(a)[b] <= 1;
    }
  }
}
