/** The arena over whole runs: what any sequence of protocol-abiding calls returns and leaves. */
module ArenaRuns {
  import opened Common
  import opened Tensors
  import opened Paging
  import opened PagingProofs
  import opened WriteCosts
  import opened Prefixes
  import opened PrefixProofs
  import opened Arenas
  import opened ArenaProofs
  import opened Owners
  import P = Pools

  lemma InitInv(layers: nat, numBlocks: nat, blockSize: nat, maxBlocks: nat, zero: KV, kvOf: Oracle)
    requires layers > 0 && blockSize > 0
    ensures Inv(Arenas.Init(layers, numBlocks, blockSize, maxBlocks, zero), [], kvOf)
  {
    P.InitExact(numBlocks, blockSize);
    var a := Arenas.Init(layers, numBlocks, blockSize, maxBlocks, zero);
    assert AllHeld(a) == multiset{};
  }

  lemma InitTracked(layers: nat, numBlocks: nat, blockSize: nat, maxBlocks: nat, zero: KV, kvOf: Oracle)
    requires layers > 0 && blockSize > 0
    ensures Tracked(Arenas.Init(layers, numBlocks, blockSize, maxBlocks, zero), [], kvOf)
  {
    InitInv(layers, numBlocks, blockSize, maxBlocks, zero, kvOf);
    assert Hists([]) == [];
  }

  /** Every call of the run is one its caller was entitled to make, as far as the owners know. */
  ghost predicate Permitted(a: Arena, os: seq<Owner>, ops: seq<Op>, kvOf: Oracle)
    decreases |ops|
  {
    ops == [] ||
    (&& a.store.pool.blockSize > 0 && Enabled(|a.store.kv|, os, ops[0], kvOf)
     && Permitted(Call(a, ops[0]).arena, Abstract(a, os, ops[0], kvOf), ops[1..], kvOf))
  }

  /** Every call of the run returned what the owners say. */
  ghost predicate Answers(a: Arena, os: seq<Owner>, ops: seq<Op>, kvOf: Oracle)
    requires Permitted(a, os, ops, kvOf)
    decreases |ops|
  {
    ops == [] ||
    (&& Answer(a, os, ops[0], Call(a, ops[0]), kvOf)
     && Answers(Call(a, ops[0]).arena, Abstract(a, os, ops[0], kvOf), ops[1..], kvOf))
  }

  datatype Outcome = Outcome(arena: Arena, owners: seq<Owner>)

  ghost function Run(a: Arena, os: seq<Owner>, ops: seq<Op>, kvOf: Oracle): Outcome
    requires Permitted(a, os, ops, kvOf)
    decreases |ops|
  {
    if ops == [] then Outcome(a, os)
    else Run(Call(a, ops[0]).arena, Abstract(a, os, ops[0], kvOf), ops[1..], kvOf)
  }

  /** These calls, each one its caller may make, lead from the one state to the other. */
  ghost predicate Reaches(a: Arena, os: seq<Owner>, ops: seq<Op>, a': Arena, os': seq<Owner>, kvOf: Oracle) {
    Permitted(a, os, ops, kvOf) && Run(a, os, ops, kvOf) == Outcome(a', os')
  }

  lemma ReachesNow(a: Arena, os: seq<Owner>, kvOf: Oracle)
    ensures Reaches(a, os, [], a, os, kvOf)
  {
  }

  lemma ReachesBy(a: Arena, os: seq<Owner>, op: Op, a1: Arena, os1: seq<Owner>, rest: seq<Op>, a': Arena, os': seq<Owner>, kvOf: Oracle)
    requires a.store.pool.blockSize > 0 && Enabled(|a.store.kv|, os, op, kvOf)
    requires Call(a, op).arena == a1 && Abstract(a, os, op, kvOf) == os1
    requires Reaches(a1, os1, rest, a', os', kvOf)
    ensures Reaches(a, os, [op] + rest, a', os', kvOf)
  {
    hide Call, Enabled, Abstract;
    assert ([op] + rest)[1..] == rest;
  }

  /** Paged storage refines one private history per sequence, over every run by any number of tenants:
      every call returns what the owners say, and at the end every cache is what its owner takes it for. */
  lemma {:induction false} RunRefines(a: Arena, os: seq<Owner>, ops: seq<Op>, kvOf: Oracle)
    requires Tracked(a, os, kvOf) && Permitted(a, os, ops, kvOf)
    ensures Answers(a, os, ops, kvOf)
    ensures var o := Run(a, os, ops, kvOf); Tracked(o.arena, o.owners, kvOf)
    decreases |ops|
  {
    hide Tracked, Answer, Abstract, Call, Enabled;
    if ops != [] {
      StepRefines(a, os, ops[0], kvOf);
      RunRefines(Call(a, ops[0]).arena, Abstract(a, os, ops[0], kvOf), ops[1..], kvOf);
    }
  }

  /** The same from a new arena, with what the invariant means at the end spelled out: counts are the
      number of table slots and cache entries naming a block, the free list is exactly the unnamed
      blocks, every cache starts at the layer it was asked for, and every sequence between forwards gathers
      its own history at every layer. */
  lemma RunsFromStart(layers: nat, numBlocks: nat, blockSize: nat, maxBlocks: nat, zero: KV, ops: seq<Op>, kvOf: Oracle)
    requires layers > 0 && blockSize > 0
    requires Permitted(Arenas.Init(layers, numBlocks, blockSize, maxBlocks, zero), [], ops, kvOf)
    ensures var a0 := Arenas.Init(layers, numBlocks, blockSize, maxBlocks, zero);
      Answers(a0, [], ops, kvOf)
      && var o := Run(a0, [], ops, kvOf);
      && var p := o.arena.store.pool;
      && (forall b :: 0 <= b < |p.refcount| ==> p.refcount[b] == AllHeld(o.arena)[b])
      && Distinct(p.free) && (forall b :: b in p.free <==> 0 <= b < |p.refcount| && AllHeld(o.arena)[b] == 0)
      && |o.owners| == |o.arena.caches|
      && (forall id :: 0 <= id < |o.owners| ==> o.arena.caches[id].firstLayer == o.owners[id].first)
      && (forall id, l :: 0 <= id < |o.owners| && Between(o.owners[id]) && 0 <= l < |o.arena.store.kv| ==>
            l < |o.owners[id].hist| && Gather(o.arena.store.kv[l], o.arena.caches[id].table) == o.owners[id].hist[l])
  {
    var a0 := Arenas.Init(layers, numBlocks, blockSize, maxBlocks, zero);
    InitTracked(layers, numBlocks, blockSize, maxBlocks, zero, kvOf);
    RunRefines(a0, [], ops, kvOf);
    var o := Run(a0, [], ops, kvOf);
    InvMeans(o.arena, Hists(o.owners), kvOf);
    TrackedFacts(o.arena, o.owners, kvOf);
    hide Inv, Answers, Run, Permitted, Arenas.Init, AllHeld, Gather, Boundary, Between;
  }

  lemma InvMeans(a: Arena, hs: seq<Hist>, kvOf: Oracle)
    requires Inv(a, hs, kvOf)
    ensures var p := a.store.pool;
      && (forall b :: 0 <= b < |p.refcount| ==> p.refcount[b] == AllHeld(a)[b])
      && Distinct(p.free) && (forall b :: b in p.free <==> 0 <= b < |p.refcount| && AllHeld(a)[b] == 0)
    ensures |hs| == |a.caches|
    ensures forall id, l :: 0 <= id < |hs| && Boundary(a.caches[id], hs[id]) && 0 <= l < |a.store.kv| ==>
      l < |hs[id]| && Gather(a.store.kv[l], a.caches[id].table) == hs[id][l]
  {
    hide AllHeld, Flat, CacheInv, Midway, Shaped;
    forall id, l | 0 <= id < |hs| && Boundary(a.caches[id], hs[id]) && 0 <= l < |a.store.kv|
      ensures l < |hs[id]| && Gather(a.store.kv[l], a.caches[id].table) == hs[id][l]
    {
      assert Tenant(a, id, hs[id]);
      GatherIsHistory(a.store, a.caches[id], hs[id], l);
    }
  }

  lemma GatherIsHistory(s: Store, c: Cache, h: Hist, l: nat)
    requires Rep(s, c, h) && l < |s.kv| && |h[l]| == c.table.numTokens
    ensures Gather(s.kv[l], c.table) == h[l]
  {
  }

  /** A block table maps exactly the positions claimed to where their entries are. */
  lemma LocatesOwn(a: Arena, os: seq<Owner>, id: nat, position: int, l: nat, kvOf: Oracle)
    requires Tracked(a, os, kvOf) && id < |os| == |a.caches| && Between(os[id]) && l < |a.store.kv|
    ensures a.store.pool.blockSize > 0
    ensures var r := Locate(a.caches[id].table, a.store.pool.blockSize, position);
      if 0 <= position < os[id].tokens then
        && r.Ok?
        && var (b, slot) := r.value;
        && b in a.caches[id].table.blocks && slot < |Row(a.store.kv[l], b)|
        && l < |os[id].hist| && position < |os[id].hist[l]| && Row(a.store.kv[l], b)[slot] == os[id].hist[l][position]
      else r == Err(IndexError)
  {
    hide Inv, Held, Rep, Others, Midway, P.Exact, AllHeld, Row, Concat, Boundary, Between;
    TrackedFacts(a, os, kvOf);
    InvHeld(a, Hists(os), kvOf, id);
    var s, c, h, bs := a.store, a.caches[id], os[id].hist, a.store.pool.blockSize;
    TenantRep(a, id, h);
    if 0 <= position < os[id].tokens {
      RepAt(s, c, h, l, position);
      HeldRows(s, c, Others(a, id), l);
      ConcatAt(Rows(s.kv[l], c.table.blocks), bs, position);
      LengthsAre(c, h, l);
      var flat := Flat(s.kv[l], c.table.blocks);
      assert h[l] == flat[..|h[l]|];
    }
  }

  lemma LengthsAre(c: Cache, h: Hist, l: nat)
    requires Boundary(c, h) && l < |h|
    ensures |h[l]| == c.table.numTokens
  {
  }

  lemma RepAt(s: Store, c: Cache, h: Hist, l: nat, position: nat)
    requires Rep(s, c, h) && l < |h| && position < c.table.numTokens
    ensures position < |c.table.blocks| * s.pool.blockSize && h[l] <= Flat(s.kv[l], c.table.blocks)
  {
  }

  lemma HeldRows(s: Store, c: Cache, others: multiset<Block>, l: nat)
    requires Held(s, c, others) && l < |s.kv|
    ensures forall k :: 0 <= k < |c.table.blocks| ==> |Rows(s.kv[l], c.table.blocks)[k]| == s.pool.blockSize
  {
    hide P.Exact;
    HeldInRange(s, c, others);
    forall k | 0 <= k < |c.table.blocks| ensures |Row(s.kv[l], c.table.blocks[k])| == s.pool.blockSize {
      assert c.table.blocks[k] in c.table.blocks;
    }
  }

  /** A write never lands in a cached block: an update changes no row of any layer that a
      prefix-cache entry refers to, nor any row in another sequence's table. */
  lemma UpdateSparesEverybodyElse(a: Arena, os: seq<Owner>, id: nat, layer: nat, xs: seq<KV>, kvOf: Oracle)
    requires Tracked(a, os, kvOf)
    requires Enabled(|a.store.kv|, os, Update(id, layer, xs), kvOf)
    ensures var kv' := Call(a, Update(id, layer, xs)).arena.store.kv;
      && |kv'| == |a.store.kv|
      && (forall l, e :: 0 <= l < |kv'| && e in a.entries ==> Row(kv'[l], e.block) == Row(a.store.kv[l], e.block))
      && (forall l, j, b :: 0 <= l < |kv'| && 0 <= j < |a.caches| && j != id && b in a.caches[j].table.blocks ==>
            Row(kv'[l], b) == Row(a.store.kv[l], b))
  {
    hide Inv, Isolated, Held, Rep, Paging.Update, Others, AllHeld, Refs, Boundary;
    TrackedFacts(a, os, kvOf);
    OthersFacts(a, id);
    UpdateIsolated(a, os, id, layer, xs, kvOf);
    var o := Paging.Update(a.store, a.caches[id], layer, xs);
    assert SameOn(a.store.kv, o.store.kv, Others(a, id)) by {
      IsolatedSame(a.store, a.caches[id], o.store, o.cache, Others(a, id));
    }
    forall e | e in a.entries ensures e.block in Others(a, id) {
      EntryHeld(a.entries, e);
      RefsAre(a.entries);
    }
    forall l, j, b | 0 <= l < |o.store.kv| && 0 <= j < |a.caches| && j != id && b in a.caches[j].table.blocks
      ensures Row(o.store.kv[l], b) == Row(a.store.kv[l], b)
    {
      assert b in Bag(a.caches[j]);
      assert b in Others(a, id);
    }
  }

  lemma RefsAre(entries: seq<Entry>)
    ensures Refs(entries) == multiset(Blocks(entries))
  {
  }

  lemma IsolatedSame(s: Store, c: Cache, s': Store, c': Cache, others: multiset<Block>)
    requires Isolated(s, c, s', c', others)
    ensures SameOn(s.kv, s'.kv, others)
  {
  }

  lemma UpdateIsolated(a: Arena, os: seq<Owner>, id: nat, layer: nat, xs: seq<KV>, kvOf: Oracle)
    requires Tracked(a, os, kvOf) && a.store.pool.blockSize > 0 && id < |a.caches|
    requires Enabled(|a.store.kv|, os, Update(id, layer, xs), kvOf) && a.caches[id].firstLayer <= layer
    ensures var o := Paging.Update(a.store, a.caches[id], layer, xs);
      Isolated(a.store, a.caches[id], o.store, o.cache, Others(a, id))
  {
    hide Inv, Held, Isolated, Rep, Others, Private, Paging.Update;
    TrackedFacts(a, os, kvOf);
    InvHeld(a, Hists(os), kvOf, id);
    var c, h, others := a.caches[id], os[id].hist, Others(a, id);
    if layer == c.firstLayer {
      FirstUpdateCorrect(a.store, c, others, xs, h);
    } else {
      if !InFlight(a.store.pool.blockSize, c, h, others) {
        EmptyPrivate(a.store.pool.blockSize, c, others, c.table.numTokens);
      }
      LaterUpdateCorrect(a.store, c, others, layer, xs, h);
    }
  }

  /** When every holder has let go, the whole pool is free again. */
  lemma {:induction false} AllReleased(a: Arena, hs: seq<Hist>, kvOf: Oracle)
    requires Inv(a, hs, kvOf) && a.entries == []
    requires forall id :: 0 <= id < |a.caches| ==> a.caches[id].table.blocks == []
    ensures |a.store.pool.free| == |a.store.pool.refcount|
  {
    NothingHeld(a.caches);
    assert AllHeld(a) == multiset{};
    P.ExactPassesChecks(a.store.pool, AllHeld(a));
  }

  lemma {:induction false} NothingHeld(caches: seq<Cache>)
    requires forall id :: 0 <= id < |caches| ==> caches[id].table.blocks == []
    ensures HeldBy(caches) == multiset{}
  {
    if caches != [] {
      NothingHeld(caches[..|caches| - 1]);
    }
  }

  /** The match is the longest run of leading full blocks that are present. */
  lemma AdoptsLongestPrefix(a: Arena, hs: seq<Hist>, tokens: seq<Token>, firstLayer: nat, kvOf: Oracle)
    requires Inv(a, hs, kvOf)
    ensures a.store.pool.blockSize > 0
    ensures var d := Do(a, Adopt(tokens, firstLayer));
      var hashes := BlockHashes(tokens, a.store.pool.blockSize);
      && |d.arena.caches| == |a.caches| + 1
      && var n := |d.arena.caches[|a.caches|].table.blocks|;
      && n <= |hashes|
      && (forall i :: 0 <= i < n ==> Contains(a.entries, hashes[i]))
      && (n < |hashes| ==> !Contains(a.entries, hashes[n]))
  {
    hide Inv, Cached, Lookup, BlockHashes, Contains, Refs, P.Exact, HeldBy;
    InvCached(a, hs, kvOf);
    var hashes := BlockHashes(tokens, a.store.pool.blockSize);
    LookupCorrect(a.store.pool, a.entries, HeldBy(a.caches), tokens);
    var blocks := Lookup(a.store.pool, a.entries, tokens).result.value.0;
    forall i | 0 <= i < |blocks| ensures Contains(a.entries, hashes[i]) {
      ContainsMember(a.entries, hashes[i]);
    }
  }

  /** While the cache has room for them, registering a prefill and then looking the same tokens up
      finds every full block: the new sequence starts with the whole prompt but its partial block. */
  lemma RegisteredIsFound(a: Arena, hs: seq<Hist>, id: nat, tokens: seq<Token>, firstLayer: nat, kvOf: Oracle)
    requires Inv(a, hs, kvOf) && Registrable(a, hs, id, tokens, kvOf)
    requires |a.entries| + Div(|tokens|, a.store.pool.blockSize) <= a.maxBlocks
    ensures var bs := a.store.pool.blockSize;
      var a1 := Do(a, Register(id, tokens)).arena;
      && a1.store.pool.blockSize == bs
      && var c := Do(a1, Adopt(tokens, firstLayer)).arena.caches;
      && |c| == |a.caches| + 1
      && |c[|a.caches|].table.blocks| == Div(|tokens|, bs)
      && |tokens| - bs < c[|a.caches|].table.numTokens <= |tokens|
  {
    hide Inv, Cached, AllHeld, P.Exact, Lookup, Prefixes.Register, Bag, HeldBy, Contains, BlockHashes, CacheInv, Boundary, HistIs, Refs, Tenant;
    InvCached(a, hs, kvOf);
    RegisteredAll(a, hs, id, tokens, kvOf);
    RegisterStep(a, hs, id, tokens, kvOf);
    var a1 := Do(a, Register(id, tokens)).arena;
    AdoptsLongestPrefix(a1, hs, tokens, firstLayer, kvOf);
    InvCached(a1, hs, kvOf);
    LookupCorrect(a1.store.pool, a1.entries, HeldBy(a1.caches), tokens);
    DivBounds(|tokens|, a.store.pool.blockSize);
  }

  lemma RegisteredAll(a: Arena, hs: seq<Hist>, id: nat, tokens: seq<Token>, kvOf: Oracle)
    requires Inv(a, hs, kvOf) && Registrable(a, hs, id, tokens, kvOf)
    requires |a.entries| + Div(|tokens|, a.store.pool.blockSize) <= a.maxBlocks
    ensures var a1 := Do(a, Register(id, tokens)).arena;
      && a1.store.pool.blockSize == a.store.pool.blockSize
      && a1.caches == a.caches
      && var hashes := BlockHashes(tokens, a.store.pool.blockSize);
      forall i :: 0 <= i < |hashes| ==> Contains(a1.entries, hashes[i])
  {
    hide Inv, Cached, AllHeld, P.Exact, Lookup, HeldBy, Contains, CacheInv, Refs, RegisterFrom;
    InvCached(a, hs, kvOf);
    InvHeld(a, hs, kvOf, id);
    MemberHeld(a, id);
    var bs, blocks := a.store.pool.blockSize, a.caches[id].table.blocks;
    assert forall b :: b in blocks ==> b in HeldBy(a.caches);
    RegisterCorrect(a.store.pool, a.entries, a.maxBlocks, tokens, blocks, HeldBy(a.caches));
    var hashes := BlockHashes(tokens, bs);
    PrefilledCovers(a, hs, id, tokens, kvOf);
    RegistersAll(a.store.pool, a.entries, a.maxBlocks, hashes, blocks, 0, HeldBy(a.caches));
  }

  lemma PrefilledCovers(a: Arena, hs: seq<Hist>, id: nat, tokens: seq<Token>, kvOf: Oracle)
    requires Inv(a, hs, kvOf) && Registrable(a, hs, id, tokens, kvOf)
    ensures Div(|tokens|, a.store.pool.blockSize) <= |a.caches[id].table.blocks|
  {
    hide Inv, Held, Others, Midway, PrefixKV, P.Exact, Flat;
    InvHeld(a, hs, kvOf, id);
    var n, t, bs := |tokens|, a.caches[id].table, a.store.pool.blockSize;
    assert n <= |hs[id][0]| <= t.numTokens <= |t.blocks| * bs;
    DivMono(n, |t.blocks| * bs, bs);
    DivUnique(|t.blocks| * bs, bs, |t.blocks|);
  }
}
