/** Exactly when a batch runs out of blocks. */
module Shortage {
  import opened Common
  import opened Tensors
  import opened Decoders
  import opened Paging
  import opened PagingProofs
  import opened Arenas
  import opened ArenaProofs
  import opened Requests
  import opened Scheduling
  import opened Serving
  import opened ForwardProofs
  import X = ExecutionProofs
  import opened LifecycleProofs
  import opened EngineProofs
  import opened EngineRuns
  import opened Shapes
  import opened ExhaustionProofs
  import opened Unsharing

  // ------------------------------------------------------------------------------ a forward

  lemma EnsureError(a: Arena, c: nat, n: nat)
    requires c < |a.caches|
    ensures a.store.pool.blockSize > 0 && Call(a, Ensure(c, n)).result.Err? ==> Call(a, Ensure(c, n)).result.error == OutOfBlocks
  {
  }

  /** With a device that does not fail, growing and running a chunk succeeds exactly when the blocks
      it lacks are free. */
  lemma FeedExact(d: Decoder, a: Arena, hs: seq<Hist>, c: nat, xs: seq<Hidden>, ys: seq<Hidden>, fuel: nat)
    requires ArenaOk(d, a, hs) && c < |a.caches| && a.store.pool.blockSize > 0 && Unshared(AllHeld(a))
    requires c < |hs| && hs[c] == History(d, xs) && TokensIn(a, c) == |xs| && fuel > d.layers
    ensures var f := Feed(d, a, c, ys, fuel);
      if CeilDiv(|xs| + |ys|, a.store.pool.blockSize) <= Claimed(a, c) + |a.store.pool.free| then f.error.None? && f.fuel == fuel - d.layers - 1
      else f.error == Some(OutOfBlocks)
  {
    hide ArenaOk, Inv, PagedForward, AllHeld, Unshared, CeilDiv, Do, History;
    if CeilDiv(|xs| + |ys|, a.store.pool.blockSize) <= Claimed(a, c) + |a.store.pool.free| {
      FeedRoom(d, a, hs, c, xs, ys, fuel);
    } else {
      OkFacts(d, a, hs, c);
      EnsureRoom(a, hs, c, |xs| + |ys|, NOTHING);
      EnsureError(a, c, |xs| + |ys|);
    }
  }

  // ---------------------------------------------------------------------------- one request

  /** How many positions a request adds in one turn. */
  ghost function Turn(chunk: nat, r: Request): nat {
    if r.state == Prefilling then Max(0, Min(chunk, |r.prompt| - r.offset)) else 1
  }

  /** The blocks a request must still claim for its turn. */
  ghost function Wants(chunk: nat, a: Arena, r: Request): nat {
    var bs := a.store.pool.blockSize;
    if bs > 0 then Max(0, CeilDiv(X.Held(a, r) + Turn(chunk, r), bs) - Has(a, r)) else 0
  }

  ghost function FreeIn(e: Exec): nat {
    |e.arena.store.pool.free|
  }

  /** What one turn did, when the wanted blocks were there. */
  ghost predicate Claims(e: Exec, e': Exec, id: Id, live: seq<Id>, wants: nat, layers: nat) {
    && e'.error.None? && e.fuel > layers && e'.fuel == e.fuel - layers - 1
    && FreeIn(e') + wants == FreeIn(e) && Unshared(AllHeld(e'.arena))
    && e'.arena.store.pool.blockSize == e.arena.store.pool.blockSize
    && Has(e'.arena, At(e'.reqs, id)) == Has(e.arena, At(e.reqs, id)) + wants
    && forall j :: j in live && j != id ==> Has(e'.arena, At(e'.reqs, j)) == Has(e.arena, At(e.reqs, j))
  }

  lemma CacheForHas(d: Decoder, e: Exec, live: seq<Id>, hs: seq<Hist>, id: Id)
    requires X.ExecOk(d, e.reqs, e.arena, live, hs, {}) && id in live && id in e.reqs && Unshared(AllHeld(e.arena))
    ensures var e1 := CacheFor(e, id);
      && e1.arena.store == e.arena.store && Unshared(AllHeld(e1.arena))
      && forall j :: j in live ==> Has(e1.arena, At(e1.reqs, j)) == Has(e.arena, At(e.reqs, j))
  {
    hide ArenaOk, Do, CeilDiv, Unshared, X.Owns, X.NoStrays;
    X.OkSize(d, e.arena, hs);
    if e.reqs[id].cache.None? {
      var a := e.arena;
      var e1 := CacheFor(e, id);
      X.NewOk(d, a, hs);
      NewStore(a);
      NewHeld(d, a, hs, e1.arena);
      forall j | j in live ensures Has(e1.arena, At(e1.reqs, j)) == Has(a, At(e.reqs, j)) {
        assert j in e.reqs;
        assert j != id && e.reqs[j].cache.Some? ==> e.reqs[j].cache.value < |a.caches|;
      }
    }
  }

  /** Feeding a live request's own cache its next inputs. */
  lemma FeedClaims(d: Decoder, e: Exec, live: seq<Id>, hs: seq<Hist>, id: Id, ys: seq<Hidden>)
    requires X.ExecOk(d, e.reqs, e.arena, live, hs, {}) && id in live && id in e.reqs && e.reqs[id].cache.Some?
    requires e.error.None? && Unshared(AllHeld(e.arena)) && e.fuel > d.layers && e.arena.store.pool.blockSize > 0
    requires X.Held(e.arena, e.reqs[id]) + |ys| <= |X.Fed(d, e.reqs[id])|
    ensures var f := Feed(d, e.arena, e.reqs[id].cache.value, ys, e.fuel);
      var wants := Max(0, CeilDiv(X.Held(e.arena, e.reqs[id]) + |ys|, e.arena.store.pool.blockSize) - Has(e.arena, e.reqs[id]));
      if wants <= FreeIn(e) then f.error.None? && Claims(e, e.(arena := f.arena, fuel := f.fuel), id, live, wants, d.layers)
      else f.error == Some(OutOfBlocks)
  {
    hide ArenaOk, History, X.Fed, Feed, AllHeld, Unshared, X.NoStrays, CeilDiv;
    X.OkSize(d, e.arena, hs);
    var r := e.reqs[id];
    var c := r.cache.value;
    assert X.Owns(d, r, e.arena, hs);
    var xs := X.Fed(d, r)[..X.Held(e.arena, r)];
    FeedExact(d, e.arena, hs, c, xs, ys, e.fuel);
    if CeilDiv(|xs| + |ys|, e.arena.store.pool.blockSize) <= Claimed(e.arena, c) + |e.arena.store.pool.free| {
      FeedRoom(d, e.arena, hs, c, xs, ys, e.fuel);
      var f := Feed(d, e.arena, c, ys, e.fuel);
      FeedShape(d, e.arena, c, ys, e.fuel);
      forall j | j in live && j != id ensures Has(f.arena, At(e.reqs, j)) == Has(e.arena, At(e.reqs, j)) {
        assert j in e.reqs && (e.reqs[j].cache.Some? ==> e.reqs[j].cache.value < |e.arena.caches| && e.reqs[j].cache != r.cache);
      }
    }
  }

  lemma PrefillExact(d: Decoder, chunk: nat, e: Exec, live: seq<Id>, hs: seq<Hist>, id: Id)
    requires X.ExecOk(d, e.reqs, e.arena, live, hs, {}) && id in live && id in e.reqs && e.error.None? && chunk > 0
    requires e.reqs[id].state == Prefilling && X.Ready(d, e.reqs[id], e.arena)
    requires Unshared(AllHeld(e.arena)) && e.fuel > d.layers && e.arena.store.pool.blockSize > 0
    ensures var e' := ExecPrefill(d, chunk, e, id);
      var wants := Wants(chunk, e.arena, e.reqs[id]);
      if wants <= FreeIn(e) then Claims(e, e', id, live, wants, d.layers) else e'.error == Some(OutOfBlocks)
  {
    hide X.ExecOk, X.Fed, Feed, X.Held, CeilDiv, Has, Unshared, AllHeld, PromptInputs, CacheFor;
    var hs1 := X.CacheForOk(d, e, live, hs, id);
    CacheForHas(d, e, live, hs, id);
    var e1 := CacheFor(e, id);
    var r := e1.reqs[id];
    var n := X.ChunkLength(chunk, r);
    X.PromptSlice(d, r, n);
    assert id in e.reqs && At(e.reqs, id) == e.reqs[id] && At(e1.reqs, id) == r;
    FeedClaims(d, e1, live, hs1, id, Slice(PromptInputs(d, r), r.offset, r.offset + n));
  }

  lemma DecodeExact(d: Decoder, chunk: nat, e: Exec, live: seq<Id>, hs: seq<Hist>, id: Id)
    requires X.ExecOk(d, e.reqs, e.arena, live, hs, {}) && id in live && id in e.reqs && e.error.None?
    requires e.reqs[id].state == Decoding && X.Ready(d, e.reqs[id], e.arena)
    requires Unshared(AllHeld(e.arena)) && e.fuel > d.layers && e.arena.store.pool.blockSize > 0
    ensures var e' := ExecDecode(d, e, id);
      var wants := Wants(chunk, e.arena, e.reqs[id]);
      if wants <= FreeIn(e) then Claims(e, e', id, live, wants, d.layers) else e'.error == Some(OutOfBlocks)
  {
    hide X.ExecOk, X.Fed, Feed, X.Held, CeilDiv, Has, Unshared, AllHeld, PromptInputs, CacheFor;
    var hs1 := X.CacheForOk(d, e, live, hs, id);
    CacheForHas(d, e, live, hs, id);
    var e1 := CacheFor(e, id);
    var r := e1.reqs[id];
    X.SameFed(d, e.reqs[id], r);
    X.LastFed(d, r);
    var ys := [d.embed(r.gen[|r.gen| - 1])];
    assert At(e.reqs, id) == e.reqs[id] && At(e1.reqs, id) == r;
    FeedClaims(d, e1, live, hs1, id, ys);
    var hs2 := X.FeedOne(d, e1, live, hs1, id, ys);
  }

  // ------------------------------------------------------------------------------- the batch

  /** What a whole batch must still claim. */
  ghost function Demand(chunk: nat, a: Arena, reqs: map<Id, Request>, ids: seq<Id>): nat {
    if ids == [] then 0 else Wants(chunk, a, At(reqs, ids[0])) + Demand(chunk, a, reqs, ids[1..])
  }

  lemma {:induction false} DemandSame(chunk: nat, a: Arena, reqs: map<Id, Request>, a': Arena, reqs': map<Id, Request>, ids: seq<Id>)
    requires forall j :: j in ids ==> Wants(chunk, a', At(reqs', j)) == Wants(chunk, a, At(reqs, j))
    ensures Demand(chunk, a', reqs', ids) == Demand(chunk, a, reqs, ids)
  {
    if ids != [] {
      assert ids[0] in ids && forall j :: j in ids[1..] ==> j in ids;
      DemandSame(chunk, a, reqs, a', reqs', ids[1..]);
    }
  }

  lemma {:induction false} DemandJoin(chunk: nat, a: Arena, reqs: map<Id, Request>, xs: seq<Id>, ys: seq<Id>)
    ensures Demand(chunk, a, reqs, xs + ys) == Demand(chunk, a, reqs, xs) + Demand(chunk, a, reqs, ys)
  {
    if xs == [] {
      assert xs + ys == ys;
    } else {
      assert (xs + ys)[1..] == xs[1..] + ys;
      DemandJoin(chunk, a, reqs, xs[1..], ys);
    }
  }

  /** What `n` forwards take of the device: their layers, and what follows the last. */
  function DeviceSteps(n: nat, layers: nat): nat {
    if n == 0 then 0 else layers + 1 + DeviceSteps(n - 1, layers)
  }

  lemma {:induction false} DeviceStepsSum(m: nat, n: nat, layers: nat)
    ensures DeviceSteps(m + n, layers) == DeviceSteps(m, layers) + DeviceSteps(n, layers)
  {
    if m > 0 {
      DeviceStepsSum(m - 1, n, layers);
    }
  }

  /** Running these requests succeeds, and claims exactly what they want, when that is free; and runs
      out of blocks when it is not. */
  ghost predicate Outcome(chunk: nat, e: Exec, e': Exec, ids: seq<Id>, live: seq<Id>, layers: nat) {
    var demand := Demand(chunk, e.arena, e.reqs, ids);
    if demand <= FreeIn(e) then
      && e'.error.None? && e'.fuel + DeviceSteps(|ids|, layers) == e.fuel
      && FreeIn(e') + demand == FreeIn(e) && Unshared(AllHeld(e'.arena))
      && e'.arena.store.pool.blockSize == e.arena.store.pool.blockSize
      && forall j :: j in live ==>
           Has(e'.arena, At(e'.reqs, j)) == Has(e.arena, At(e.reqs, j)) + if j in ids then Wants(chunk, e.arena, At(e.reqs, j)) else 0
    else e'.error == Some(OutOfBlocks)
  }

  lemma OutcomePush(chunk: nat, e: Exec, e1: Exec, e': Exec, ids: seq<Id>, live: seq<Id>, layers: nat)
    requires ids != [] && Distinct(ids) && forall j :: j in ids ==> j in live && j in e.reqs
    requires X.OnlyTouched(e, e1, ids[0], live)
    requires var wants := Wants(chunk, e.arena, At(e.reqs, ids[0]));
      if wants <= FreeIn(e) then Claims(e, e1, ids[0], live, wants, layers) && Outcome(chunk, e1, e', ids[1..], live, layers)
      else e'.error == Some(OutOfBlocks)
    ensures Outcome(chunk, e, e', ids, live, layers)
  {
    hide Unshared, AllHeld, CeilDiv, X.Held, Has;
    var id := ids[0];
    var wants := Wants(chunk, e.arena, At(e.reqs, id));
    if wants <= FreeIn(e) {
      forall j | j in ids[1..] ensures j in ids && j != id && Wants(chunk, e1.arena, At(e1.reqs, j)) == Wants(chunk, e.arena, At(e.reqs, j)) {
        assert e1.reqs[j] == e.reqs[j];
      }
      DemandSame(chunk, e.arena, e.reqs, e1.arena, e1.reqs, ids[1..]);
      assert forall j :: j in ids <==> j == id || j in ids[1..];
    }
  }

  lemma {:induction false} PrefillsExact(d: Decoder, chunk: nat, e: Exec, live: seq<Id>, hs: seq<Hist>, ids: seq<Id>)
    requires X.ExecOk(d, e.reqs, e.arena, live, hs, {}) && e.error.None? && chunk > 0
    requires X.BatchReady(d, e, live, ids, Prefilling)
    requires Unshared(AllHeld(e.arena)) && e.fuel >= DeviceSteps(|ids|, d.layers) && e.arena.store.pool.blockSize > 0
    ensures Outcome(chunk, e, ExecPrefills(d, chunk, e, ids), ids, live, d.layers)
    decreases |ids|
  {
    hide X.ExecOk, X.OnlyTouched, X.Ready, X.Reported, X.Held, ExecPrefill, Unshared, AllHeld, Wants, Has;
    if ids != [] {
      var id := ids[0];
      assert id in ids;
      X.ReadyMeans(d, e.reqs[id], e.arena);
      var hs1 := X.PrefillOne(d, chunk, e, live, hs, id);
      PrefillExact(d, chunk, e, live, hs, id);
      var e1 := ExecPrefill(d, chunk, e, id);
      if e1.error.None? {
        X.ReadyStays(d, e, e1, live, ids, Prefilling);
        PrefillsExact(d, chunk, e1, live, hs1, ids[1..]);
      } else {
        X.StuckPrefillsOk(d, chunk, e1, ids[1..]);
      }
      OutcomePush(chunk, e, e1, ExecPrefills(d, chunk, e, ids), ids, live, d.layers);
    }
  }

  lemma {:induction false} DecodesExact(d: Decoder, chunk: nat, e: Exec, live: seq<Id>, hs: seq<Hist>, ids: seq<Id>)
    requires X.ExecOk(d, e.reqs, e.arena, live, hs, {}) && e.error.None? && chunk > 0
    requires X.BatchReady(d, e, live, ids, Decoding)
    requires Unshared(AllHeld(e.arena)) && e.fuel >= DeviceSteps(|ids|, d.layers) && e.arena.store.pool.blockSize > 0
    ensures Outcome(chunk, e, ExecDecodes(d, e, ids), ids, live, d.layers)
    decreases |ids|
  {
    hide X.ExecOk, X.OnlyTouched, X.Ready, X.Reported, X.Held, ExecDecode, Unshared, AllHeld, Wants, Has;
    if ids != [] {
      var id := ids[0];
      assert id in ids;
      X.ReadyMeans(d, e.reqs[id], e.arena);
      var hs1 := X.DecodeOne(d, chunk, e, live, hs, id);
      DecodeExact(d, chunk, e, live, hs, id);
      var e1 := ExecDecode(d, e, id);
      if e1.error.None? {
        X.ReadyStays(d, e, e1, live, ids, Decoding);
        DecodesExact(d, chunk, e1, live, hs1, ids[1..]);
      } else {
        X.StuckDecodesOk(d, chunk, e1, ids[1..]);
      }
      OutcomePush(chunk, e, e1, ExecDecodes(d, e, ids), ids, live, d.layers);
    }
  }

  lemma LaterWants(chunk: nat, e: Exec, e1: Exec, xs: seq<Id>, ys: seq<Id>, live: seq<Id>)
    requires X.Touched(e, e1, xs, live) && e1.arena.store.pool.blockSize == e.arena.store.pool.blockSize
    requires forall j :: j in live ==> Has(e1.arena, At(e1.reqs, j)) == Has(e.arena, At(e.reqs, j)) + if j in xs then Wants(chunk, e.arena, At(e.reqs, j)) else 0
    requires Distinct(xs + ys) && forall j :: j in xs + ys ==> j in live && j in e.reqs
    ensures forall j :: j in ys ==> j !in xs && Wants(chunk, e1.arena, At(e1.reqs, j)) == Wants(chunk, e.arena, At(e.reqs, j))
    ensures Demand(chunk, e1.arena, e1.reqs, ys) == Demand(chunk, e.arena, e.reqs, ys)
  {
    hide CeilDiv, X.Held, Has;
    X.PartsDistinct(xs, ys);
    forall j | j in ys ensures j !in xs && Wants(chunk, e1.arena, At(e1.reqs, j)) == Wants(chunk, e.arena, At(e.reqs, j)) {
      assert j in xs + ys && e1.reqs[j] == e.reqs[j];
    }
    DemandSame(chunk, e.arena, e.reqs, e1.arena, e1.reqs, ys);
  }

  lemma OutcomeJoin(chunk: nat, e: Exec, e1: Exec, e': Exec, xs: seq<Id>, ys: seq<Id>, live: seq<Id>, layers: nat)
    requires Outcome(chunk, e, e1, xs, live, layers) && X.Touched(e, e1, xs, live)
    requires e1.error.None? ==> Outcome(chunk, e1, e', ys, live, layers)
    requires e1.error.Some? ==> e' == e1
    requires Distinct(xs + ys) && forall j :: j in xs + ys ==> j in live && j in e.reqs
    ensures Outcome(chunk, e, e', xs + ys, live, layers)
  {
    hide Unshared, AllHeld, X.Touched, Wants, Has, Distinct, DeviceSteps, Demand;
    DemandJoin(chunk, e.arena, e.reqs, xs, ys);
    DeviceStepsSum(|xs|, |ys|, layers);
    if e1.error.None? {
      LaterWants(chunk, e, e1, xs, ys, live);
      assert forall j :: j in xs + ys <==> j in xs || j in ys;
    }
  }

  /** On a device that does not fail, a batch runs to the end exactly when the blocks its requests
      still lack are free; otherwise it runs out. */
  lemma ExecuteExact(d: Decoder, cfg: Config, en: Engine, b: Batch, hs: seq<Hist>, fuel: nat)
    requires EngineInv(d, cfg, en, hs) && Distinct(b.prefill + b.decode) && cfg.chunk > 0
    requires forall id :: id in b.prefill + b.decode ==>
      && id in en.sys.running && id in en.sys.reqs
      && en.sys.reqs[id].state == if id in b.prefill then Prefilling else Decoding
    requires Unshared(AllHeld(en.sys.arena)) && en.sys.arena.store.pool.blockSize > 0
    requires fuel >= DeviceSteps(|b.prefill + b.decode|, d.layers)
    ensures var e := Exec(en.sys.reqs, en.sys.arena, Output(map[], map[]), fuel, None);
      Outcome(cfg.chunk, e, Execute(d, cfg, en.sys, b, fuel), b.prefill + b.decode, en.sys.running, d.layers)
  {
    hide X.ExecOk, X.Ready, X.Reported, X.AllReported, X.Held, ExecPrefills, ExecDecodes, Streams, Unshared, AllHeld, Wants, Has;
    var sys, live := en.sys, en.sys.running;
    var e := Exec(sys.reqs, sys.arena, Output(map[], map[]), fuel, None);
    X.PartsDistinct(b.prefill, b.decode);
    forall id | id in b.prefill || id in b.decode
      ensures id in b.prefill + b.decode && sys.reqs[id].id == id && X.Ready(d, sys.reqs[id], sys.arena)
    {
      assert id in b.prefill + b.decode;
      ReadyFrom(d, cfg, sys.reqs[id], sys.arena);
    }
    DeviceStepsSum(|b.prefill|, |b.decode|, d.layers);
    var hs1 := X.PrefillsOk(d, cfg.chunk, e, live, hs, b.prefill);
    PrefillsExact(d, cfg.chunk, e, live, hs, b.prefill);
    var e1 := ExecPrefills(d, cfg.chunk, e, b.prefill);
    if e1.error.None? {
      X.DecodesReady(d, e, e1, live, b);
      DecodesExact(d, cfg.chunk, e1, live, hs1, b.decode);
    } else {
      X.StuckDecodesOk(d, cfg.chunk, e1, b.decode);
    }
    OutcomeJoin(cfg.chunk, e, e1, Execute(d, cfg, sys, b, fuel), b.prefill, b.decode, live, d.layers);
  }

  // ---------------------------------------------------------------------------------- whole runs

  lemma SoleMeans(a: Arena)
    requires Sole(a)
    ensures Unshared(AllHeld(a)) && a.store.pool.blockSize > 0
  {
  }

  lemma StepErrorIs(d: Decoder, cfg: Config, en: Engine, hs: seq<Hist>, fuel: nat)
    requires EngineInv(d, cfg, en, hs) && Sole(en.sys.arena) && cfg.chunk > 0
    ensures var (sys, b) := Schedule(cfg, en.sys);
      var ids := b.prefill + b.decode;
      fuel >= DeviceSteps(|ids|, d.layers) ==>
        StepError(d, cfg, en, fuel) == if Demand(cfg.chunk, sys.arena, sys.reqs, ids) <= NumFree(sys) then None else Some(OutOfBlocks)
  {
    hide EngineInv, Admit, Execute, Sole, Unshared, AllHeld, Wants, Has, DeviceSteps;
    ScheduleKeeps(d, cfg, en, hs);
    AdmitArena(cfg, en.sys, Pick(cfg, en.sys.reqs, en.sys.running, Batch([], [])));
    SoleMeans(en.sys.arena);
    var (sys, b) := Schedule(cfg, en.sys);
    if fuel >= DeviceSteps(|b.prefill + b.decode|, d.layers) && b.prefill + b.decode != [] {
      ExecuteExact(d, cfg, en.(sys := sys), b, hs, fuel);
    }
  }

  /** In every run of the server, whatever arrived and whatever faults struck before: on a device that
      lasts the batch, the next iteration runs out of blocks exactly when its requests still lack more
      blocks than are free, and otherwise raises nothing. */
  lemma RunsOutExactlyWhenShort(d: Decoder, cfg: Config, numBlocks: nat, blockSize: nat, zero: KV, actions: seq<Action>, fuel: nat)
    requires d.layers > 0 && blockSize > 0 && cfg.chunk > 0
    requires Permitted(d, cfg, Start(d.layers, numBlocks, blockSize, zero), actions)
    ensures var en := Run(d, cfg, Start(d.layers, numBlocks, blockSize, zero), actions);
      var (sys, b) := Schedule(cfg, en.sys);
      var ids := b.prefill + b.decode;
      en.alive && fuel >= DeviceSteps(|ids|, d.layers) ==>
        StepError(d, cfg, en, fuel) == if Demand(cfg.chunk, sys.arena, sys.reqs, ids) <= NumFree(sys) then None else Some(OutOfBlocks)
  {
    hide Start, Run, StepError, EngineInv, Settled, InboxOk, Schedule, Sole, Demand, DeviceSteps;
    StartOk(d, cfg, numBlocks, blockSize, zero);
    var en0 := Start(d.layers, numBlocks, blockSize, zero);
    var hs := RunKeeps(d, cfg, en0, [], actions);
    var en := Run(d, cfg, en0, actions);
    ServingNeverShares(d, cfg, d.layers, numBlocks, blockSize, zero, actions);
    if en.alive {
      StepErrorIs(d, cfg, en, hs, fuel);
    }
  }
}
