/** A block table holds exactly as many blocks as its tokens need, never a spare: at every loop boundary of
    every run of the server. Inside an iteration a table grows ahead of its tokens, and a fault can leave
    it so; the engine then gives up every table of the batch. */
module TightTables {
  import opened Common
  import opened Tensors
  import opened Decoders
  import opened Paging
  import opened WriteCosts
  import opened Arenas
  import opened Requests
  import opened Scheduling
  import opened Serving
  import opened ForwardProofs
  import X = ExecutionProofs
  import opened LifecycleProofs
  import opened EngineProofs
  import opened EngineRuns
  import opened ExhaustionProofs
  import opened NoExhaustion
  import opened Unsharing
  import opened Shapes
  import P = Pools

  ghost predicate Tight(a: Arena, c: nat)
    requires a.store.pool.blockSize > 0 && c < |a.caches|
  {
    |a.caches[c].table.blocks| == CeilDiv(a.caches[c].table.numTokens, a.store.pool.blockSize)
  }

  /** Every table is tight, but perhaps for one. */
  ghost predicate TightBut(a: Arena, loose: Option<nat>) {
    && a.store.pool.blockSize > 0
    && forall c :: 0 <= c < |a.caches| ==> a.caches[c].firstLayer == 0 && (loose != Some(c) ==> Tight(a, c))
  }

  lemma TightAnyway(a: Arena, c: nat)
    requires TightBut(a, None)
    ensures TightBut(a, Some(c))
  {
  }

  // ---------------------------------------------------------------------------------- one call

  /** Only sequence `c` changed. */
  ghost predicate Only(a: Arena, a': Arena, c: nat) {
    && |a'.caches| == |a.caches| && a'.store.pool.blockSize == a.store.pool.blockSize
    && (forall j :: 0 <= j < |a.caches| ==> a'.caches[j].firstLayer == a.caches[j].firstLayer)
    && (forall j :: 0 <= j < |a.caches| && j != c ==> a'.caches[j] == a.caches[j])
  }

  lemma OnlyLoose(a: Arena, a': Arena, c: nat, loose: Option<nat>)
    requires TightBut(a, loose) && (loose == None || loose == Some(c)) && Only(a, a', c)
    ensures TightBut(a', Some(c))
    ensures c < |a'.caches| && Tight(a', c) ==> TightBut(a', None)
    ensures c >= |a'.caches| ==> TightBut(a', None)
  {
  }

  lemma {:induction false} UnshareRangeTable(s: Store, c: Cache, k: nat, last: int)
    ensures var t := UnshareRange(s, c, k, last).cache.table; |t.blocks| == |c.table.blocks| && t.numTokens == c.table.numTokens
    ensures UnshareRange(s, c, k, last).cache.firstLayer == c.firstLayer
    decreases last + 1 - k
  {
    if k <= last {
      var o := Unshare(s.pool, c.table, k);
      if o.result.Ok? {
        match o.result.value
        case None => UnshareRangeTable(s.(pool := o.pool), c.(table := o.table), k + 1, last);
        case Some((old_, new_)) =>
          UnshareRangeTable(Store(o.pool, CopyBlock(s.kv, old_, new_)), c.(table := o.table), k + 1, last);
      }
    }
  }

  lemma EnsureTable(a: Arena, c: nat, n: nat)
    requires a.store.pool.blockSize > 0
    ensures var d := Call(a, Ensure(c, n));
      && Only(a, d.arena, c)
      && (d.result.Err? ==> d.arena.caches == a.caches)
      && (d.result.Ok? ==>
            && c < |a.caches|
            && d.arena.caches[c].table.numTokens == a.caches[c].table.numTokens
            && |d.arena.caches[c].table.blocks| == Max(|a.caches[c].table.blocks|, CeilDiv(n, a.store.pool.blockSize)))
  {
    hide CeilDiv;
    if c < |a.caches| {
      var t := a.caches[c].table;
      var need := CeilDiv(n, a.store.pool.blockSize);
      if need > |t.blocks| {
        assert P.Allocate(a.store.pool, need - |t.blocks|).result.Ok? ==>
          |P.Allocate(a.store.pool, need - |t.blocks|).result.value| == need - |t.blocks|;
      }
      assert a.caches[c := a.caches[c].(table := t)] == a.caches;
    }
  }

  lemma UpdateTable(a: Arena, c: nat, layer: nat, xs: seq<KV>)
    requires a.store.pool.blockSize > 0 && (c < |a.caches| ==> a.caches[c].firstLayer == 0)
    ensures var d := Call(a, Update(c, layer, xs));
      && Only(a, d.arena, c)
      && (d.result.Ok? ==>
            && c < |a.caches|
            && var t, t' := a.caches[c].table, d.arena.caches[c].table;
            && |t'.blocks| == (if layer == 0 then Max(|t.blocks|, CeilDiv(t.numTokens + |xs|, a.store.pool.blockSize)) else |t.blocks|)
            && t'.numTokens == t.numTokens + (if layer == 0 then |xs| else 0))
  {
    hide CeilDiv, UnshareRange, Write, Gather;
    CallShape(a, Update(c, layer, xs));
    if c < |a.caches| {
      var s, cache, bs := a.store, a.caches[c], a.store.pool.blockSize;
      var start := cache.table.numTokens;
      var o := Append(s.pool, cache.table, |xs|);
      UnshareRangeTable(s.(pool := o.pool), cache.(pending := |xs|, table := o.table), Div(start, bs), Div(start + |xs| - 1, bs));
    }
  }

  lemma FreeTables(a: Arena, c: nat)
    requires a.store.pool.blockSize > 0
    ensures var a' := Call(a, Free(c)).arena;
      && Only(a, a', c)
      && (c < |a.caches| ==> a'.caches[c].table == a.caches[c].table || a'.caches[c].table == EMPTY_TABLE)
  {
    hide P.Free;
    CallShape(a, Free(c));
  }

  lemma EmptyTight(bs: nat)
    requires bs > 0
    ensures CeilDiv(0, bs) == 0
  {
    CeilDivAdjunction(0, bs, 0);
  }

  // ------------------------------------------------------------------------------- the executor

  lemma {:induction false} LaterLayersTight(d: Decoder, a: Arena, c: nat, past: nat, hs: seq<Hidden>, l: nat, fuel: nat, loose: Option<nat>)
    requires 0 < l <= d.layers && TightBut(a, loose) && (loose == None || loose == Some(c))
    ensures var f := PagedForward(d, a, c, past, hs, l, fuel);
      && TightBut(f.arena, Some(c)) && (f.error.None? && loose == None ==> TightBut(f.arena, None))
    decreases d.layers - l
  {
    hide Call, Tight, CeilDiv, ChunkKV, ChunkAttend;
    if loose == None { TightAnyway(a, c); }
    if l < d.layers && fuel > 0 {
      var new_ := ChunkKV(d, l, past, hs);
      UpdateTable(a, c, l, new_);
      var u := Call(a, Update(c, l, new_));
      OnlyLoose(a, u.arena, c, loose);
      if u.result.Ok? {
        if loose == None { StillTight(a, u.arena, c); }
        LaterLayersTight(d, u.arena, c, past, ChunkAttend(d, l, past, hs, u.result.value), l + 1, fuel - 1, loose);
      }
    }
  }

  lemma StillTight(a: Arena, a': Arena, c: nat)
    requires TightBut(a, None) && Only(a, a', c) && c < |a.caches|
    requires |a'.caches[c].table.blocks| == |a.caches[c].table.blocks| && a'.caches[c].table.numTokens == a.caches[c].table.numTokens
    ensures TightBut(a', None)
  {
    assert Tight(a, c);
  }

  /** A chunk that goes through leaves its table tight; one that does not may leave it grown ahead. */
  lemma FeedTight(d: Decoder, a: Arena, c: nat, hs: seq<Hidden>, fuel: nat)
    requires d.layers > 0 && TightBut(a, None)
    ensures var f := Feed(d, a, c, hs, fuel);
      TightBut(f.arena, Some(c)) && (f.error.None? ==> TightBut(f.arena, None))
  {
    hide Call, CeilDiv, ChunkKV, ChunkAttend;
    var bs, past := a.store.pool.blockSize, TokensIn(a, c);
    EnsureTable(a, c, past + |hs|);
    var g := Call(a, Ensure(c, past + |hs|));
    OnlyLoose(a, g.arena, c, None);
    if g.result.Ok? && fuel > 0 {
      assert Tight(a, c);
      CeilDivMono(past, past + |hs|, bs);
      var new_ := ChunkKV(d, 0, past, hs);
      UpdateTable(g.arena, c, 0, new_);
      var u := Call(g.arena, Update(c, 0, new_));
      OnlyLoose(g.arena, u.arena, c, Some(c));
      if u.result.Ok? {
        assert Tight(u.arena, c);
        LaterLayersTight(d, u.arena, c, past, ChunkAttend(d, 0, past, hs, u.result.value), 1, fuel - 1, None);
      }
    }
  }

  /** How: a device that gives out before the first layer leaves the blocks of tokens that never came. */
  lemma GrownAhead(d: Decoder, a: Arena, c: nat, hs: seq<Hidden>)
    requires TightBut(a, None) && c < |a.caches| && Call(a, Ensure(c, TokensIn(a, c) + |hs|)).result.Ok?
    ensures var f := Feed(d, a, c, hs, 0);
      && f.error == Some(RuntimeFault) && c < |f.arena.caches| && f.arena.caches[c].table.numTokens == TokensIn(a, c)
      && |f.arena.caches[c].table.blocks| == CeilDiv(TokensIn(a, c) + |hs|, a.store.pool.blockSize)
  {
    hide Call, CeilDiv;
    EnsureTable(a, c, TokensIn(a, c) + |hs|);
    assert Tight(a, c);
    CeilDivMono(TokensIn(a, c), TokensIn(a, c) + |hs|, a.store.pool.blockSize);
  }

  /** After some of a batch: all tight, or a fault left one table loose, that of a request of the batch. */
  ghost predicate Settled(e: Exec, ids: seq<Id>) {
    if e.error.None? then TightBut(e.arena, None)
    else TightBut(e.arena, None) || exists id, c :: id in ids && At(e.reqs, id).cache == Some(c) && TightBut(e.arena, Some(c))
  }

  lemma CacheForTight(e: Exec, id: Id)
    requires TightBut(e.arena, None)
    ensures TightBut(CacheFor(e, id).arena, None) && At(CacheFor(e, id).reqs, id).cache.Some?
  {
    EmptyTight(e.arena.store.pool.blockSize);
    hide CeilDiv;
    if At(e.reqs, id).cache.None? {
      var a' := Call(e.arena, New(0)).arena;
      assert a'.caches == e.arena.caches + [Cache(EMPTY_TABLE, 0, 0)];
      assert forall c :: 0 <= c < |e.arena.caches| ==> Tight(e.arena, c) && a'.caches[c] == e.arena.caches[c];
    }
  }

  lemma PrefillTight(d: Decoder, chunk: nat, e: Exec, id: Id)
    requires d.layers > 0 && e.error.None? && TightBut(e.arena, None)
    ensures Settled(ExecPrefill(d, chunk, e, id), [id])
  {
    hide Feed, CacheFor, TightBut, PromptInputs;
    CacheForTight(e, id);
    var e1 := CacheFor(e, id);
    ForPlain(e, id);
    var r := At(e1.reqs, id);
    FeedTight(d, e1.arena, r.cache.value, Slice(PromptInputs(d, r), r.offset, Min(r.offset + chunk, |r.prompt|)), e1.fuel);
    assert id in [id];
  }

  lemma ForPlain(e: Exec, id: Id)
    ensures CacheFor(e, id).error == e.error
  {
  }

  lemma DecodeTight(d: Decoder, e: Exec, id: Id)
    requires d.layers > 0 && e.error.None? && TightBut(e.arena, None)
    ensures Settled(ExecDecode(d, e, id), [id])
  {
    hide Feed, CacheFor, TightBut;
    CacheForTight(e, id);
    ForPlain(e, id);
    var e1 := CacheFor(e, id);
    var r := At(e1.reqs, id);
    if r.gen != [] {
      FeedTight(d, e1.arena, r.cache.value, [d.embed(r.gen[|r.gen| - 1])], e1.fuel);
    }
    assert id in [id];
  }

  lemma SettledIn(e: Exec, some: seq<Id>, ids: seq<Id>)
    requires Settled(e, some) && forall id :: id in some ==> id in ids
    ensures Settled(e, ids)
  {
    hide TightBut;
  }

  lemma {:induction false} PrefillsTight(d: Decoder, chunk: nat, e: Exec, ids: seq<Id>)
    requires d.layers > 0 && e.error.None? && TightBut(e.arena, None)
    ensures Settled(ExecPrefills(d, chunk, e, ids), ids)
    decreases |ids|
  {
    hide ExecPrefill, TightBut, Settled;
    if ids == [] {
      assert Settled(e, []) by { SettledNow(e); }
    } else {
      PrefillTight(d, chunk, e, ids[0]);
      var e1 := ExecPrefill(d, chunk, e, ids[0]);
      if e1.error.None? {
        SettledMeans(e1, [ids[0]]);
        PrefillsTight(d, chunk, e1, ids[1..]);
        SettledIn(ExecPrefills(d, chunk, e1, ids[1..]), ids[1..], ids);
      } else {
        X.StuckPrefillsOk(d, chunk, e1, ids[1..]);
        SettledIn(e1, [ids[0]], ids);
      }
    }
  }

  lemma SettledNow(e: Exec)
    requires TightBut(e.arena, None)
    ensures Settled(e, [])
  {
  }

  lemma SettledMeans(e: Exec, ids: seq<Id>)
    requires Settled(e, ids) && e.error.None?
    ensures TightBut(e.arena, None)
  {
  }

  lemma {:induction false} DecodesTight(d: Decoder, e: Exec, ids: seq<Id>)
    requires d.layers > 0 && e.error.None? && TightBut(e.arena, None)
    ensures Settled(ExecDecodes(d, e, ids), ids)
    decreases |ids|
  {
    hide ExecDecode, TightBut, Settled;
    if ids == [] {
      assert Settled(e, []) by { SettledNow(e); }
    } else {
      DecodeTight(d, e, ids[0]);
      var e1 := ExecDecode(d, e, ids[0]);
      if e1.error.None? {
        SettledMeans(e1, [ids[0]]);
        DecodesTight(d, e1, ids[1..]);
        SettledIn(ExecDecodes(d, e1, ids[1..]), ids[1..], ids);
      } else {
        X.StuckDecodesOk(d, 0, e1, ids[1..]);
        SettledIn(e1, [ids[0]], ids);
      }
    }
  }

  lemma ExecuteTight(d: Decoder, cfg: Config, sys: Sys, b: Batch, fuel: nat)
    requires d.layers > 0 && TightBut(sys.arena, None)
    ensures Settled(Execute(d, cfg, sys, b, fuel), b.prefill + b.decode)
  {
    hide ExecPrefills, ExecDecodes, TightBut, Settled;
    var e := Exec(sys.reqs, sys.arena, Output(map[], map[]), fuel, None);
    PrefillsTight(d, cfg.chunk, e, b.prefill);
    var e1 := ExecPrefills(d, cfg.chunk, e, b.prefill);
    if e1.error.None? {
      SettledMeans(e1, b.prefill);
      DecodesTight(d, e1, b.decode);
      SettledIn(ExecDecodes(d, e1, b.decode), b.decode, b.prefill + b.decode);
    } else {
      X.StuckDecodesOk(d, 0, e1, b.decode);
      SettledIn(e1, b.prefill, b.prefill + b.decode);
    }
  }

  // --------------------------------------------------------------------------------- the engine

  lemma FinishTight(sys: Sys, id: Id)
    requires TightBut(sys.arena, None)
    ensures TightBut(Finish(sys, id).arena, None)
  {
    EmptyTight(sys.arena.store.pool.blockSize);
    hide Call, CeilDiv;
    var r := At(sys.reqs, id);
    if r.cache.Some? {
      FreeTables(sys.arena, r.cache.value);
      OnlyLoose(sys.arena, Finish(sys, id).arena, r.cache.value, None);
      if r.cache.value < |sys.arena.caches| {
        assert Tight(sys.arena, r.cache.value);
      }
    }
  }

  lemma {:induction false} ApplyAllTight(cfg: Config, en: Engine, out: Output, ids: seq<Id>)
    requires TightBut(en.sys.arena, None)
    ensures TightBut(ApplyAll(cfg, en, out, ids).sys.arena, None)
    decreases |ids|
  {
    hide Finish, TightBut, Stops;
    if ids != [] {
      var en1 := ApplyProgress(en, out, ids[0]);
      if ids[0] in out.tokens {
        var r := At(en1.sys.reqs, ids[0]);
        FinishTight(en1.sys.(reqs := en1.sys.reqs[ids[0] := r.(gen := r.gen + [out.tokens[ids[0]]])]), ids[0]);
      }
      ApplyAllTight(cfg, ApplyOne(cfg, en, out, ids[0]), out, ids[1..]);
    }
  }

  /** One table may be loose, and then its request is still to be failed. */
  ghost predicate ToFail(sys: Sys, pending: seq<Id>) {
    TightBut(sys.arena, None) || exists id, c :: id in pending && At(sys.reqs, id).cache == Some(c) && TightBut(sys.arena, Some(c))
  }

  lemma FailOneTight(d: Decoder, cfg: Config, en: Engine, hs: seq<Hist>, pending: seq<Id>, out: Output)
    requires Mid(d, cfg, en, hs, pending, out, false) && pending != [] && ToFail(en.sys, pending)
    ensures ToFail(FailOne(en, pending[0]).sys, pending[1..])
  {
    hide X.ExecOk, Lives, Streams, TightBut, FailOne, Release;
    var id := pending[0];
    MidFacts(d, cfg, en, hs, pending, out, false);
    FailOneRetires(d, cfg, en, hs, pending, out);
    SetSame(en, id);
    var sys' := Finish(en.sys, id);
    assert FailOne(en, id).sys == sys';
    if TightBut(en.sys.arena, None) {
      FinishTight(en.sys, id);
    } else {
      var x, c :| x in pending && At(en.sys.reqs, x).cache == Some(c) && TightBut(en.sys.arena, Some(c));
      FinishReleases(d, en.sys, hs, id, BadOf(pending, false), c);
      if x != id {
        assert x in pending[1..] && At(sys'.reqs, x) == At(en.sys.reqs, x);
      }
    }
  }

  lemma FinishReleases(d: Decoder, sys: Sys, hs: seq<Hist>, id: Id, bad: set<Id>, c: nat)
    requires X.ExecOk(d, sys.reqs, sys.arena, sys.running, hs, bad) && id in sys.running && id in sys.reqs
    requires TightBut(sys.arena, Some(c))
    ensures TightBut(Finish(sys, id).arena, Some(c))
    ensures sys.reqs[id].cache == Some(c) ==> TightBut(Finish(sys, id).arena, None)
  {
    EmptyTight(sys.arena.store.pool.blockSize);
    hide ArenaOk, Call, CeilDiv, X.Owns, X.NoStrays;
    X.OkSize(d, sys.arena, hs);
    if sys.reqs[id].cache.Some? {
      var own := sys.reqs[id].cache.value;
      FreeOk(d, sys.arena, hs, own);
      FreeTables(sys.arena, own);
    }
  }

  lemma {:induction false} FailAllTight(d: Decoder, cfg: Config, en: Engine, hs: seq<Hist>, pending: seq<Id>, out: Output)
    requires Mid(d, cfg, en, hs, pending, out, false) && ToFail(en.sys, pending)
    ensures TightBut(FailAll(en, pending).sys.arena, None)
    decreases |pending|
  {
    hide Mid, FailOne, TightBut;
    if pending != [] {
      FailOneTight(d, cfg, en, hs, pending, out);
      var hs1 := FailOneMid(d, cfg, en, hs, pending, out);
      FailAllTight(d, cfg, FailOne(en, pending[0]), hs1, pending[1..], out);
    }
  }

  lemma StepTight(d: Decoder, cfg: Config, en: Engine, hs: seq<Hist>, fuel: nat)
    requires d.layers > 0 && EngineInv(d, cfg, en, hs) && TightBut(en.sys.arena, None)
    ensures TightBut(Step(d, cfg, en, fuel).sys.arena, None)
  {
    hide EngineInv, Admit, Execute, Mid, FailAll, ApplyAll, TightBut;
    ScheduleKeeps(d, cfg, en, hs);
    AdmitArena(cfg, en.sys, Pick(cfg, en.sys.reqs, en.sys.running, Batch([], [])));
    var (sys, b) := Schedule(cfg, en.sys);
    if !(b.prefill == [] && b.decode == []) {
      var ids := b.prefill + b.decode;
      ExecuteTight(d, cfg, sys, b, fuel);
      var hs1 := ExecuteMid(d, cfg, en.(sys := sys), b, hs, fuel);
      var e := Execute(d, cfg, sys, b, fuel);
      var en1 := en.(sys := sys.(reqs := e.reqs, arena := e.arena));
      if e.error.Some? {
        FailAllTight(d, cfg, en1, hs1, ids, e.out);
      } else {
        ApplyAllTight(cfg, en1, e.out, ids);
      }
    }
  }

  lemma {:induction false} RunTight(d: Decoder, cfg: Config, en: Engine, hs: seq<Hist>, actions: seq<Action>)
    requires d.layers > 0 && RunInv(d, cfg, en, hs) && EngineRuns.Permitted(d, cfg, en, actions) && TightBut(en.sys.arena, None)
    ensures TightBut(EngineRuns.Run(d, cfg, en, actions).sys.arena, None)
    decreases |actions|
  {
    hide EngineInv, EngineRuns.Settled, Step, Drain, TightBut, InboxOk, WaitOk, Known;
    if actions != [] {
      var hs1 := ActKeeps(d, cfg, en, hs, actions[0]);
      DrainArena(en);
      if en.alive && actions[0].Iterate? {
        StepTight(d, cfg, en, hs, actions[0].fuel);
      }
      RunTight(d, cfg, Act(d, cfg, en, actions[0]), hs1, actions[1..]);
    }
  }

  /** Over every run of the server, wherever faults strike: between iterations every block table, of
      requests running, finished and failed, holds exactly the blocks its tokens need. */
  lemma NeverASpareBlock(d: Decoder, cfg: Config, numBlocks: nat, blockSize: nat, zero: KV, actions: seq<Action>)
    requires d.layers > 0 && blockSize > 0
    requires EngineRuns.Permitted(d, cfg, Start(d.layers, numBlocks, blockSize, zero), actions)
    ensures var a := EngineRuns.Run(d, cfg, Start(d.layers, numBlocks, blockSize, zero), actions).sys.arena;
      a.store.pool.blockSize > 0 && forall c :: 0 <= c < |a.caches| ==> Tight(a, c)
  {
    hide EngineRuns.Run, EngineRuns.Permitted, RunInv;
    var en := Start(d.layers, numBlocks, blockSize, zero);
    StartOk(d, cfg, numBlocks, blockSize, zero);
    assert en.sys.arena.caches == [];
    RunTight(d, cfg, en, [], actions);
  }
}
