/** The lifecycle over whole runs: queues, states and cache lengths agree at every loop boundary, so
    the executor never meets a decoding request without a token. */
module LifecycleRuns {
  import opened Common
  import opened Tensors
  import opened Decoders
  import opened Paging
  import opened Arenas
  import opened Requests
  import opened Scheduling
  import opened Serving
  import X = ExecutionProofs
  import opened LifecycleProofs
  import opened EngineProofs
  import opened EngineRuns

  // --------------------------------------------------------------- where the error comes from

  lemma {:induction false} UnshareRangeErrors(s: Store, c: Cache, k: nat, last: int)
    ensures UnshareRange(s, c, k, last).result != Err(NoToken)
    decreases last + 1 - k
  {
    if k <= last {
      var o := Unshare(s.pool, c.table, k);
      if o.result.Ok? {
        match o.result.value
        case None => UnshareRangeErrors(s.(pool := o.pool), c.(table := o.table), k + 1, last);
        case Some((old_, new_)) =>
          UnshareRangeErrors(Store(o.pool, CopyBlock(s.kv, old_, new_)), c.(table := o.table), k + 1, last);
      }
    }
  }

  lemma GrowErrors(a: Arena, c: nat, n: nat)
    ensures Call(a, Ensure(c, n)).result != Err(NoToken)
  {
  }

  lemma UpdateErrors(a: Arena, c: nat, layer: nat, xs: seq<KV>)
    ensures Call(a, Update(c, layer, xs)).result != Err(NoToken)
  {
    hide UnshareRange, Write, Gather;
    if a.store.pool.blockSize > 0 && c < |a.caches| {
      var bs, cache := a.store.pool.blockSize, a.caches[c];
      var o := Append(a.store.pool, cache.table, |xs|);
      var start := cache.table.numTokens;
      UnshareRangeErrors(a.store.(pool := o.pool), cache.(pending := |xs|, table := o.table), Div(start, bs), Div(start + |xs| - 1, bs));
    }
  }

  lemma {:induction false} ForwardErrors(d: Decoder, a: Arena, c: nat, past: nat, hs: seq<Hidden>, l: nat, fuel: nat)
    requires l <= d.layers
    ensures PagedForward(d, a, c, past, hs, l, fuel).error != Some(NoToken)
    decreases d.layers - l
  {
    hide Call;
    if l < d.layers && fuel > 0 {
      var new_ := ChunkKV(d, l, past, hs);
      UpdateErrors(a, c, l, new_);
      var u := Call(a, Update(c, l, new_));
      if u.result.Ok? {
        ForwardErrors(d, u.arena, c, past, ChunkAttend(d, l, past, hs, u.result.value), l + 1, fuel - 1);
      }
    }
  }

  lemma FeedErrors(d: Decoder, a: Arena, c: nat, hs: seq<Hidden>, fuel: nat)
    ensures Feed(d, a, c, hs, fuel).error != Some(NoToken)
  {
    hide Call, PagedForward;
    GrowErrors(a, c, TokensIn(a, c) + |hs|);
    ForwardErrors(d, Call(a, Ensure(c, TokensIn(a, c) + |hs|)).arena, c, TokensIn(a, c), hs, 0, fuel);
  }

  /** Nobody's tokens change while a batch runs. */
  ghost predicate SameTokens(e: Exec, e': Exec) {
    forall id :: At(e'.reqs, id).gen == At(e.reqs, id).gen
  }

  lemma PrefillErrors(d: Decoder, chunk: nat, e: Exec, id: Id)
    ensures SameTokens(e, ExecPrefill(d, chunk, e, id))
    ensures e.error != Some(NoToken) ==> ExecPrefill(d, chunk, e, id).error != Some(NoToken)
  {
    hide Feed, Call, PromptInputs;
    var e1 := CacheFor(e, id);
    var r := At(e1.reqs, id);
    if r.cache.Some? {
      FeedErrors(d, e1.arena, r.cache.value, Slice(PromptInputs(d, r), r.offset, Min(r.offset + chunk, |r.prompt|)), e1.fuel);
    }
  }

  /** The executor's own complaint is raised exactly for a request that has no token. */
  lemma DecodeErrors(d: Decoder, e: Exec, id: Id)
    ensures SameTokens(e, ExecDecode(d, e, id))
    ensures e.error.None? ==> (ExecDecode(d, e, id).error == Some(NoToken) <==> At(e.reqs, id).gen == [])
  {
    hide Feed, Call;
    var e1 := CacheFor(e, id);
    var r := At(e1.reqs, id);
    if e.error.None? && r.gen != [] && r.cache.Some? {
      FeedErrors(d, e1.arena, r.cache.value, [d.embed(r.gen[|r.gen| - 1])], e1.fuel);
    }
  }

  lemma {:induction false} PrefillsErrors(d: Decoder, chunk: nat, e: Exec, ids: seq<Id>)
    requires e.error != Some(NoToken)
    ensures SameTokens(e, ExecPrefills(d, chunk, e, ids)) && ExecPrefills(d, chunk, e, ids).error != Some(NoToken)
    decreases |ids|
  {
    hide ExecPrefill;
    if ids != [] {
      PrefillErrors(d, chunk, e, ids[0]);
      PrefillsErrors(d, chunk, ExecPrefill(d, chunk, e, ids[0]), ids[1..]);
    }
  }

  lemma {:induction false} DecodesErrors(d: Decoder, e: Exec, ids: seq<Id>)
    requires e.error != Some(NoToken) && forall id :: id in ids ==> At(e.reqs, id).gen != []
    ensures ExecDecodes(d, e, ids).error != Some(NoToken)
    decreases |ids|
  {
    hide ExecDecode;
    if ids != [] {
      assert ids[0] in ids && forall id :: id in ids[1..] ==> id in ids;
      DecodeErrors(d, e, ids[0]);
      if e.error.Some? {
        X.StuckDecodesOk(d, 0, e, ids);
      } else {
        DecodesErrors(d, ExecDecode(d, e, ids[0]), ids[1..]);
      }
    }
  }

  /** In every coherent state the step the engine takes next, wherever a fault strikes it, finds a
      token for each request it decodes. */
  lemma NoTokenUnreachable(d: Decoder, cfg: Config, en: Engine, hs: seq<Hist>, fuel: nat)
    requires EngineInv(d, cfg, en, hs)
    ensures StepError(d, cfg, en, fuel) != Some(NoToken)
  {
    hide EngineInv, Schedule, ExecPrefills, ExecDecodes;
    ScheduleKeeps(d, cfg, en, hs);
    var (sys, b) := Schedule(cfg, en.sys);
    forall id | id in b.decode ensures At(sys.reqs, id).gen != [] {
      assert id in b.prefill + b.decode;
      if id in b.prefill {
        OnePhase(b, id);
      }
      HasToken(d, cfg, en.(sys := sys), hs, id);
    }
    var e := Exec(sys.reqs, sys.arena, Output(map[], map[]), fuel, None);
    PrefillsErrors(d, cfg.chunk, e, b.prefill);
    DecodesErrors(d, ExecPrefills(d, cfg.chunk, e, b.prefill), b.decode);
  }

  lemma OnePhase(b: Batch, id: Id)
    requires Distinct(b.prefill + b.decode) && id in b.decode
    ensures id !in b.prefill
  {
    X.PartsDistinct(b.prefill, b.decode);
  }

  lemma HasToken(d: Decoder, cfg: Config, en: Engine, hs: seq<Hist>, id: Id)
    requires EngineInv(d, cfg, en, hs) && id in en.sys.running && id in en.sys.reqs && en.sys.reqs[id].state == Decoding
    ensures At(en.sys.reqs, id).gen != []
  {
    hide X.ExecOk, Streams, Greedy;
  }

  // ---------------------------------------------------------------------------------- whole runs

  /** What queue, state, progress and cache say of a request, all at once. */
  ghost predicate Coherent(sys: Sys, id: Id)
    requires id in sys.reqs
  {
    var r := sys.reqs[id];
    && r.id == id
    && (id in sys.waiting ==> r.state == Waiting && r.offset == 0 && r.gen == [] && r.cache == None)
    && (id in sys.running ==> r.state == Prefilling || r.state == Decoding)
    && (id in sys.running && r.state == Prefilling ==> r.gen == [] && r.offset < |r.prompt| && X.Held(sys.arena, r) == r.offset)
    && (id in sys.running && r.state == Decoding ==>
          r.gen != [] && r.offset == |r.prompt| && r.cache.Some? && X.Held(sys.arena, r) + 1 == |r.prompt| + |r.gen|)
    && (id in sys.finished ==> r.state == Finished && r.cache == None)
  }

  lemma InvCoherent(d: Decoder, cfg: Config, en: Engine, hs: seq<Hist>, id: Id)
    requires EngineInv(d, cfg, en, hs) && id in en.sys.reqs
    ensures Coherent(en.sys, id)
  {
    hide X.ExecOk, Streams, Greedy, X.Held, Stops;
  }

  /** At every loop boundary of every run of the server, whatever arrives when and wherever faults
      strike: each request is in exactly one queue, once; a waiting one holds nothing; a prefilling
      one's cache is exactly as long as its progress; a decoding one has a token, and its cache holds
      its prompt and all its tokens but the last; and the next iteration, at whatever point a fault
      may end it, never meets a decoding request without a token. */
  lemma LifecycleCoherent(d: Decoder, cfg: Config, numBlocks: nat, blockSize: nat, zero: KV, actions: seq<Action>)
    requires d.layers > 0 && blockSize > 0
    requires Permitted(d, cfg, Start(d.layers, numBlocks, blockSize, zero), actions)
    ensures var en := Run(d, cfg, Start(d.layers, numBlocks, blockSize, zero), actions);
      en.alive ==>
        && Queues(en.sys)
        && (forall id :: id in en.sys.reqs ==> Coherent(en.sys, id))
        && (forall fuel :: StepError(d, cfg, en, fuel) != Some(NoToken))
  {
    hide Start, Run, StepError, EngineInv, Coherent, Settled, InboxOk;
    StartOk(d, cfg, numBlocks, blockSize, zero);
    var en0 := Start(d.layers, numBlocks, blockSize, zero);
    var hs := RunKeeps(d, cfg, en0, [], actions);
    var en := Run(d, cfg, en0, actions);
    if en.alive {
      InvPartition(d, cfg, en, hs);
      forall id | id in en.sys.reqs ensures Coherent(en.sys, id) {
        InvCoherent(d, cfg, en, hs, id);
      }
      forall fuel: nat ensures StepError(d, cfg, en, fuel) != Some(NoToken) {
        NoTokenUnreachable(d, cfg, en, hs, fuel);
      }
    }
  }

  lemma InvPartition(d: Decoder, cfg: Config, en: Engine, hs: seq<Hist>)
    requires EngineInv(d, cfg, en, hs)
    ensures Queues(en.sys)
  {
  }
}
