/** What never changes while serving: the pool's size, and each request's prompt and limits. */
module Shapes {
  import opened Common
  import opened Tensors
  import opened Decoders
  import opened Paging
  import opened Arenas
  import opened Requests
  import opened Scheduling
  import opened Serving
  import P = Pools

  ghost predicate SamePool(p: P.Pool, q: P.Pool) {
    q.blockSize == p.blockSize && |q.refcount| == |p.refcount|
  }

  lemma {:induction false} FreeShape(p: P.Pool, blocks: seq<Block>)
    ensures SamePool(p, P.Free(p, blocks).pool)
    decreases |blocks|
  {
    if blocks != [] && P.InRange(p, blocks[0]) && p.refcount[blocks[0]] != 0 {
      FreeShape(P.DropOne(p, blocks[0]), blocks[1..]);
    }
  }

  lemma {:induction false} UnshareRangeShape(s: Store, c: Cache, k: nat, last: int)
    ensures SamePool(s.pool, UnshareRange(s, c, k, last).store.pool)
    decreases last + 1 - k
  {
    if k <= last {
      var o := Unshare(s.pool, c.table, k);
      if o.result.Ok? {
        match o.result.value
        case None => UnshareRangeShape(s.(pool := o.pool), c.(table := o.table), k + 1, last);
        case Some((old_, new_)) =>
          UnshareRangeShape(Store(o.pool, CopyBlock(s.kv, old_, new_)), c.(table := o.table), k + 1, last);
      }
    }
  }

  lemma BeginShape(s: Store, c: Cache, n: nat)
    requires s.pool.blockSize > 0
    ensures SamePool(s.pool, Begin(s, c, n).store.pool)
  {
    hide UnshareRange;
    var o := Append(s.pool, c.table, n);
    if o.result.Ok? {
      var c1 := c.(pending := n, table := o.table);
      var bs := s.pool.blockSize;
      UnshareRangeShape(s.(pool := o.pool), c1, Div(c.table.numTokens, bs), Div(c.table.numTokens + n - 1, bs));
    }
  }

  ghost predicate ServingOp(op: Op) {
    op.New? || op.Ensure? || op.Update? || op.Free?
  }

  lemma CallShape(a: Arena, op: Op)
    requires ServingOp(op)
    ensures SamePool(a.store.pool, Call(a, op).arena.store.pool)
  {
    if op.Free? && op.id < |a.caches| {
      FreeShape(a.store.pool, a.caches[op.id].table.blocks);
    }
    if op.Update? && op.id < |a.caches| && a.store.pool.blockSize > 0 {
      BeginShape(a.store, a.caches[op.id], |op.xs|);
    }
    hide P.Free, Begin, Write, Gather;
  }

  ghost predicate SameArena(a: Arena, a': Arena) {
    SamePool(a.store.pool, a'.store.pool)
  }

  lemma {:induction false} ForwardShape(d: Decoder, a: Arena, c: nat, past: nat, hs: seq<Hidden>, l: nat, fuel: nat)
    requires l <= d.layers
    ensures SameArena(a, PagedForward(d, a, c, past, hs, l, fuel).arena)
    decreases d.layers - l
  {
    hide Call;
    if l < d.layers && fuel > 0 {
      var op := Update(c, l, ChunkKV(d, l, past, hs));
      CallShape(a, op);
      var u := Call(a, op);
      if u.result.Ok? {
        ForwardShape(d, u.arena, c, past, ChunkAttend(d, l, past, hs, u.result.value), l + 1, fuel - 1);
      }
    }
  }

  lemma FeedShape(d: Decoder, a: Arena, c: nat, hs: seq<Hidden>, fuel: nat)
    ensures SameArena(a, Feed(d, a, c, hs, fuel).arena)
  {
    hide Call, PagedForward;
    var op := Ensure(c, TokensIn(a, c) + |hs|);
    CallShape(a, op);
    if Call(a, op).result.Ok? {
      ForwardShape(d, Call(a, op).arena, c, TokensIn(a, c), hs, 0, fuel);
    }
  }

  lemma {:induction false} PrefillsShape(d: Decoder, chunk: nat, e: Exec, ids: seq<Id>)
    ensures SameArena(e.arena, ExecPrefills(d, chunk, e, ids).arena)
    decreases |ids|
  {
    hide Feed, Call;
    if ids != [] {
      CallShape(e.arena, New(0));
      var e1 := CacheFor(e, ids[0]);
      var r := At(e1.reqs, ids[0]);
      var end := Min(r.offset + chunk, |r.prompt|);
      if r.cache.Some? && end > r.offset {
        FeedShape(d, e1.arena, r.cache.value, Slice(PromptInputs(d, r), r.offset, end), e1.fuel);
      }
      PrefillsShape(d, chunk, ExecPrefill(d, chunk, e, ids[0]), ids[1..]);
    }
  }

  lemma {:induction false} DecodesShape(d: Decoder, e: Exec, ids: seq<Id>)
    ensures SameArena(e.arena, ExecDecodes(d, e, ids).arena)
    decreases |ids|
  {
    hide Feed, Call;
    if ids != [] {
      CallShape(e.arena, New(0));
      var e1 := CacheFor(e, ids[0]);
      var r := At(e1.reqs, ids[0]);
      if r.cache.Some? && r.gen != [] {
        FeedShape(d, e1.arena, r.cache.value, [d.embed(r.gen[|r.gen| - 1])], e1.fuel);
      }
      DecodesShape(d, ExecDecode(d, e, ids[0]), ids[1..]);
    }
  }

  lemma ExecuteShape(d: Decoder, cfg: Config, sys: Sys, b: Batch, fuel: nat)
    ensures SameArena(sys.arena, Execute(d, cfg, sys, b, fuel).arena)
  {
    hide ExecPrefills, ExecDecodes;
    var e := Exec(sys.reqs, sys.arena, Output(map[], map[]), fuel, None);
    PrefillsShape(d, cfg.chunk, e, b.prefill);
    DecodesShape(d, ExecPrefills(d, cfg.chunk, e, b.prefill), b.decode);
  }

  lemma FinishShape(sys: Sys, id: Id)
    ensures SameArena(sys.arena, Finish(sys, id).arena)
  {
    hide Call;
    var r := At(sys.reqs, id);
    if r.cache.Some? {
      CallShape(sys.arena, Free(r.cache.value));
    }
  }

  // ------------------------------------------------------------------------------- requests

  /** Same ids, and each with the prompt and limit it came with, in a pool of the same size. */
  ghost predicate Static(sys: Sys, sys': Sys) {
    && sys'.reqs.Keys == sys.reqs.Keys
    && (forall id :: id in sys.reqs ==>
          && sys'.reqs[id].prompt == sys.reqs[id].prompt && sys'.reqs[id].maxNew == sys.reqs[id].maxNew
          && sys'.reqs[id].embeds == sys.reqs[id].embeds)
    && SameArena(sys.arena, sys'.arena)
  }

  lemma FailOneStatic(en: Engine, id: Id)
    requires id in en.sys.reqs
    ensures Static(en.sys, FailOne(en, id).sys)
  {
    hide Release, Remove;
    FinishShape(en.sys, id);
  }

  lemma ProgressStatic(en: Engine, out: Output, id: Id)
    requires id in en.sys.reqs
    ensures Static(en.sys, ApplyProgress(en, out, id).sys)
  {
  }

  lemma TokenStatic(cfg: Config, en: Engine, out: Output, id: Id)
    requires id in en.sys.reqs
    ensures Static(en.sys, ApplyToken(cfg, en, out, id).sys)
  {
    hide Release, Remove, Stops;
    if id in out.tokens {
      var r := At(en.sys.reqs, id);
      FinishShape(en.sys.(reqs := en.sys.reqs[id := r.(gen := r.gen + [out.tokens[id]])]), id);
    }
  }

  lemma ApplyOneStatic(cfg: Config, en: Engine, out: Output, id: Id)
    requires id in en.sys.reqs
    ensures Static(en.sys, ApplyOne(cfg, en, out, id).sys)
  {
    hide ApplyProgress, ApplyToken;
    ProgressStatic(en, out, id);
    TokenStatic(cfg, ApplyProgress(en, out, id), out, id);
  }
}
