/** Serving never shares a block: no request forks and nobody registers a prefix, so whatever the
    executor and the engine do, faults included, every block is free or held exactly once. */
module Unsharing {
  import opened Common
  import opened Tensors
  import opened Decoders
  import opened Paging
  import opened PagingProofs
  import opened Arenas
  import opened Requests
  import opened Scheduling
  import opened Serving
  import opened EngineRuns
  import opened Shapes
  import P = Pools

  /** Exact counts, and no block referred to twice. */
  ghost predicate Sole(a: Arena) {
    P.Exact(a.store.pool, AllHeld(a)) && Unshared(AllHeld(a))
  }

  // ------------------------------------------------------------------------------- one call

  /** Growing a table takes blocks nobody held, each once. */
  lemma EnsureSole(p: P.Pool, t: Table, others: multiset<Block>, n: int)
    requires P.Exact(p, multiset(t.blocks) + others) && Unshared(multiset(t.blocks) + others) && p.blockSize > 0
    ensures var o := EnsureCapacity(p, t, n);
      P.Exact(o.pool, multiset(o.table.blocks) + others) && Unshared(multiset(o.table.blocks) + others) && o.pool.blockSize > 0
  {
    hide P.Exact, P.Allocate, CeilDiv;
    if n >= 0 && CeilDiv(n, p.blockSize) > |t.blocks| {
      var need := CeilDiv(n, p.blockSize) - |t.blocks|;
      P.AllocateExact(p, multiset(t.blocks) + others, need);
      var o := P.Allocate(p, need);
      if o.result.Ok? {
        var taken := o.result.value;
        assert multiset(t.blocks + taken) + others == multiset(t.blocks) + others + multiset(taken);
        forall b ensures multiset(taken)[b] == (if b in taken then 1 else 0) {
          DistinctCount(taken, b);
        }
      }
    }
  }

  /** With no block shared there is nothing to copy. */
  lemma {:induction false} NothingToSplit(s: Store, c: Cache, others: multiset<Block>, k: nat, last: int)
    requires P.Exact(s.pool, multiset(c.table.blocks) + others) && Unshared(multiset(c.table.blocks) + others)
    ensures UnshareRange(s, c, k, last).store == s && UnshareRange(s, c, k, last).cache == c
    decreases last + 1 - k
  {
    hide P.Exact, P.CopyOnWrite;
    if k <= last && k < |c.table.blocks| {
      assert c.table.blocks[k] in multiset(c.table.blocks);
      P.CopyOnWriteExact(s.pool, multiset(c.table.blocks) + others, c.table.blocks[k]);
      NothingToSplit(s, c, others, k + 1, last);
    }
  }

  lemma UpdateSole(s: Store, c: Cache, others: multiset<Block>, layer: nat, xs: seq<KV>)
    requires P.Exact(s.pool, multiset(c.table.blocks) + others) && Unshared(multiset(c.table.blocks) + others)
    requires s.pool.blockSize > 0 && c.firstLayer <= layer
    ensures var o := Paging.Update(s, c, layer, xs);
      P.Exact(o.store.pool, multiset(o.cache.table.blocks) + others) && Unshared(multiset(o.cache.table.blocks) + others)
  {
    hide P.Exact, Unshared, EnsureCapacity, UnshareRange, Write, Gather;
    EnsureSole(s.pool, c.table, others, c.table.numTokens + |xs|);
    var o := Append(s.pool, c.table, |xs|);
    var bs := s.pool.blockSize;
    var c1 := c.(pending := |xs|, table := o.table);
    NothingToSplit(s.(pool := o.pool), c1, others, Div(c.table.numTokens, bs), Div(c.table.numTokens + |xs| - 1, bs));
  }

  lemma FreeSole(p: P.Pool, t: Table, others: multiset<Block>)
    requires P.Exact(p, multiset(t.blocks) + others) && Unshared(multiset(t.blocks) + others)
    ensures var o := FreeTable(p, t);
      P.Exact(o.pool, multiset(o.table.blocks) + others) && Unshared(multiset(o.table.blocks) + others)
  {
    hide P.Exact, P.Free;
    P.FreeExact(p, multiset(t.blocks) + others, t.blocks);
    assert multiset(t.blocks) + others - multiset(t.blocks) == others;
    assert multiset(EMPTY_TABLE.blocks) + others == others;
    forall b ensures others[b] <= 1 {
      assert (multiset(t.blocks) + others)[b] <= 1;
    }
  }

  /** Every call serving makes, successful or not. */
  lemma CallSole(a: Arena, op: Op)
    requires Sole(a) && ServingOp(op)
    ensures Sole(Call(a, op).arena)
  {
    hide P.Exact, Unshared, Paging.Update, EnsureCapacity, FreeTable, Bag, AllHeld, Others;
    var s := a.store;
    match op
    case New(firstLayer) =>
      HeldNew(a, firstLayer);
    case Ensure(id, n) =>
      if id < |a.caches| && s.pool.blockSize > 0 {
        SplitHeld(a, id);
        EnsureSole(s.pool, a.caches[id].table, Others(a, id), n);
        var o := EnsureCapacity(s.pool, a.caches[id].table, n);
        JoinHeld(a, id, s.(pool := o.pool), a.caches[id].(table := o.table));
      }
    case Update(id, layer, xs) =>
      if id < |a.caches| && s.pool.blockSize > 0 && layer >= a.caches[id].firstLayer {
        SplitHeld(a, id);
        UpdateSole(s, a.caches[id], Others(a, id), layer, xs);
        var o := Paging.Update(s, a.caches[id], layer, xs);
        JoinHeld(a, id, o.store, o.cache);
      }
    case Free(id) =>
      if id < |a.caches| && s.pool.blockSize > 0 {
        SplitHeld(a, id);
        FreeSole(s.pool, a.caches[id].table, Others(a, id));
        var o := FreeTable(s.pool, a.caches[id].table);
        JoinHeld(a, id, s.(pool := o.pool), a.caches[id].(table := o.table));
      }
  }

  lemma HeldNew(a: Arena, firstLayer: nat)
    ensures AllHeld(a.(caches := a.caches + [Cache(EMPTY_TABLE, 0, firstLayer)])) == AllHeld(a)
  {
    HeldPush(a.caches, Cache(EMPTY_TABLE, 0, firstLayer));
  }

  lemma SplitHeld(a: Arena, id: nat)
    requires id < |a.caches|
    ensures AllHeld(a) == multiset(a.caches[id].table.blocks) + Others(a, id)
  {
    OthersFacts(a, id);
  }

  lemma JoinHeld(a: Arena, id: nat, s: Store, c: Cache)
    requires id < |a.caches|
    ensures AllHeld(Seat(a, id, s, c)) == multiset(c.table.blocks) + Others(a, id)
  {
    OthersAfter(a, id, s, c);
  }

  // ------------------------------------------------------------------------------- the executor

  lemma {:induction false} ForwardSole(d: Decoder, a: Arena, c: nat, past: nat, hs: seq<Hidden>, l: nat, fuel: nat)
    requires l <= d.layers && Sole(a)
    ensures Sole(PagedForward(d, a, c, past, hs, l, fuel).arena)
    decreases d.layers - l
  {
    hide Call, Sole;
    if l < d.layers && fuel > 0 {
      var op := Update(c, l, ChunkKV(d, l, past, hs));
      CallSole(a, op);
      var u := Call(a, op);
      if u.result.Ok? {
        ForwardSole(d, u.arena, c, past, ChunkAttend(d, l, past, hs, u.result.value), l + 1, fuel - 1);
      }
    }
  }

  lemma FeedSole(d: Decoder, a: Arena, c: nat, hs: seq<Hidden>, fuel: nat)
    requires Sole(a)
    ensures Sole(Feed(d, a, c, hs, fuel).arena)
  {
    hide Call, PagedForward, Sole;
    var op := Ensure(c, TokensIn(a, c) + |hs|);
    CallSole(a, op);
    if Call(a, op).result.Ok? {
      ForwardSole(d, Call(a, op).arena, c, TokensIn(a, c), hs, 0, fuel);
    }
  }

  lemma {:induction false} PrefillsSole(d: Decoder, chunk: nat, e: Exec, ids: seq<Id>)
    requires Sole(e.arena)
    ensures Sole(ExecPrefills(d, chunk, e, ids).arena)
    decreases |ids|
  {
    hide Feed, Call, Sole;
    if ids != [] {
      CallSole(e.arena, New(0));
      var e1 := CacheFor(e, ids[0]);
      var r := At(e1.reqs, ids[0]);
      var end := Min(r.offset + chunk, |r.prompt|);
      if r.cache.Some? {
        FeedSole(d, e1.arena, r.cache.value, Slice(PromptInputs(d, r), r.offset, end), e1.fuel);
      }
      PrefillsSole(d, chunk, ExecPrefill(d, chunk, e, ids[0]), ids[1..]);
    }
  }

  lemma {:induction false} DecodesSole(d: Decoder, e: Exec, ids: seq<Id>)
    requires Sole(e.arena)
    ensures Sole(ExecDecodes(d, e, ids).arena)
    decreases |ids|
  {
    hide Feed, Call, Sole;
    if ids != [] {
      CallSole(e.arena, New(0));
      var e1 := CacheFor(e, ids[0]);
      var r := At(e1.reqs, ids[0]);
      if r.cache.Some? && r.gen != [] {
        FeedSole(d, e1.arena, r.cache.value, [d.embed(r.gen[|r.gen| - 1])], e1.fuel);
      }
      DecodesSole(d, ExecDecode(d, e, ids[0]), ids[1..]);
    }
  }

  lemma ExecuteSole(d: Decoder, cfg: Config, sys: Sys, b: Batch, fuel: nat)
    requires Sole(sys.arena)
    ensures Sole(Execute(d, cfg, sys, b, fuel).arena)
  {
    hide ExecPrefills, ExecDecodes, Sole;
    var e := Exec(sys.reqs, sys.arena, Output(map[], map[]), fuel, None);
    PrefillsSole(d, cfg.chunk, e, b.prefill);
    DecodesSole(d, ExecPrefills(d, cfg.chunk, e, b.prefill), b.decode);
  }

  // --------------------------------------------------------------------------------- the engine

  lemma FinishSole(sys: Sys, id: Id)
    requires Sole(sys.arena)
    ensures Sole(Finish(sys, id).arena)
  {
    hide Call, Sole;
    var r := At(sys.reqs, id);
    if r.cache.Some? {
      CallSole(sys.arena, Free(r.cache.value));
    }
  }

  lemma {:induction false} FailAllSole(en: Engine, ids: seq<Id>)
    requires Sole(en.sys.arena)
    ensures Sole(FailAll(en, ids).sys.arena)
    decreases |ids|
  {
    hide Finish, Sole;
    if ids != [] {
      FinishSole(en.sys, ids[0]);
      FailAllSole(FailOne(en, ids[0]), ids[1..]);
    }
  }

  lemma TokenSole(cfg: Config, sys: Sys, id: Id, token: Token)
    requires Sole(sys.arena)
    ensures Sole(OnToken(cfg, sys, id, token).arena)
  {
    hide Finish, Sole, Stops;
    var r := At(sys.reqs, id);
    FinishSole(sys.(reqs := sys.reqs[id := r.(gen := r.gen + [token])]), id);
  }

  lemma {:induction false} ApplyAllSole(cfg: Config, en: Engine, out: Output, ids: seq<Id>)
    requires Sole(en.sys.arena)
    ensures Sole(ApplyAll(cfg, en, out, ids).sys.arena)
    decreases |ids|
  {
    hide OnToken, Sole;
    if ids != [] {
      var en1 := ApplyProgress(en, out, ids[0]);
      if ids[0] in out.tokens {
        TokenSole(cfg, en1.sys, ids[0], out.tokens[ids[0]]);
      }
      ApplyAllSole(cfg, ApplyOne(cfg, en, out, ids[0]), out, ids[1..]);
    }
  }

  lemma {:induction false} AdmitArena(cfg: Config, sys: Sys, b: Batch)
    ensures Admit(cfg, sys, b).0.arena == sys.arena
    decreases |sys.waiting|
  {
    hide Needed, Available;
    if sys.waiting != [] {
      var id := sys.waiting[0];
      AdmitArena(cfg,
        sys.(waiting := sys.waiting[1..], reqs := sys.reqs[id := At(sys.reqs, id).(state := Prefilling)], running := sys.running + [id]),
        b.(prefill := b.prefill + [id]));
    }
  }

  lemma StepSole(d: Decoder, cfg: Config, en: Engine, fuel: nat)
    requires Sole(en.sys.arena)
    ensures Sole(Step(d, cfg, en, fuel).sys.arena)
  {
    hide Admit, Execute, FailAll, ApplyAll, Sole;
    AdmitArena(cfg, en.sys, Pick(cfg, en.sys.reqs, en.sys.running, Batch([], [])));
    var (sys, b) := Schedule(cfg, en.sys);
    ExecuteSole(d, cfg, sys, b, fuel);
    var e := Execute(d, cfg, sys, b, fuel);
    var en1 := en.(sys := sys.(reqs := e.reqs, arena := e.arena));
    FailAllSole(en1, b.prefill + b.decode);
    ApplyAllSole(cfg, en1, e.out, b.prefill + b.decode);
  }

  lemma {:induction false} DrainArena(en: Engine)
    ensures Drain(en).sys.arena == en.sys.arena
    decreases |en.inbox|
  {
    if en.inbox != [] {
      var r := en.inbox[0];
      DrainArena(en.(inbox := en.inbox[1..], emitters := if r.id in en.emitters then en.emitters else en.emitters + [r.id], sys := AddRequest(en.sys, r)));
    }
  }

  lemma {:induction false} RunSole(d: Decoder, cfg: Config, en: Engine, actions: seq<Action>)
    requires Sole(en.sys.arena)
    ensures Sole(Run(d, cfg, en, actions).sys.arena)
    decreases |actions|
  {
    hide Step, Drain, Sole;
    if actions != [] {
      DrainArena(en);
      if actions[0].Iterate? {
        StepSole(d, cfg, en, actions[0].fuel);
      }
      RunSole(d, cfg, Act(d, cfg, en, actions[0]), actions[1..]);
    }
  }

  /** No run of the server ever shares a block, with or without the reserve bound and wherever faults
      strike. */
  lemma ServingNeverShares(d: Decoder, cfg: Config, layers: nat, numBlocks: nat, blockSize: nat, zero: KV, actions: seq<Action>)
    requires blockSize > 0
    ensures Sole(Run(d, cfg, Start(layers, numBlocks, blockSize, zero), actions).sys.arena)
  {
    hide Run;
    var en := Start(layers, numBlocks, blockSize, zero);
    P.InitExact(numBlocks, blockSize);
    assert AllHeld(en.sys.arena) == multiset{};
    RunSole(d, cfg, en, actions);
  }
}
