/** Preemption from an empty server: two admitted requests that return to the queue in the wrong order, and
    one that preempts itself while growing. */
module PreemptionRuns {
  import opened Common
  import opened Tensors
  import opened Decoders
  import opened Paging
  import opened PagingProofs
  import opened Arenas
  import opened ArenaProofs
  import opened Requests
  import opened Scheduling
  import opened Serving
  import opened ForwardProofs
  import X = ExecutionProofs
  import opened LifecycleProofs
  import opened EngineProofs
  import opened EngineRuns
  import opened ExhaustionProofs
  import opened LivenessProofs
  import opened NoExhaustion
  import opened Shortage
  import opened BrokenPromise
  import opened PreemptionProofs
  import opened PreemptionOrder
  import opened VictimProofs
  import opened Swaps

  /** Between steps the running requests are what preemption asks of its candidates. */
  lemma EngineLive(d: Decoder, cfg: Config, en: Engine, hs: seq<Hist>)
    requires EngineInv(d, cfg, en, hs)
    ensures Queues(en.sys) && Live(en.sys, hs, NOTHING)
  {
    hide Inv, Streams, Lives, X.Owns, X.NoStrays, CacheLength;
  }

  lemma RunStep(d: Decoder, cfg: Config, en: Engine, action: Action, rest: seq<Action>)
    ensures Run(d, cfg, en, [action] + rest) == Run(d, cfg, Act(d, cfg, en, action), rest)
    ensures (action.Submit? ==> WaitOk(action.r) && !Known(en, action.r.id)) && EngineRuns.Permitted(d, cfg, Act(d, cfg, en, action), rest) ==>
      EngineRuns.Permitted(d, cfg, en, [action] + rest)
  {
    hide Act, WaitOk, Known;
    assert ([action] + rest)[1..] == rest;
  }

  // --------------------------------------------------------------------------- out of order

  function BothAdmitted(g: nat, fuel: nat): seq<Action> {
    [Submit(First(g)), Submit(Second(g)), DrainInbox, Iterate(fuel), Iterate(fuel)]
  }

  lemma ReachBoth(d: Decoder, g: nat, zero: KV, fuel: nat) returns (en: Engine, hs: seq<Hist>)
    requires d.layers > 0 && g > 1 && fuel >= DeviceSteps(2, d.layers)
    ensures var en0 := Start(d.layers, 2 * g + 1, 2, zero);
      && EngineRuns.Permitted(d, Lean(g), en0, BothAdmitted(g, fuel)) && en == Run(d, Lean(g), en0, BothAdmitted(g, fuel))
    ensures Racing(d, g, en, hs, 2)
  {
    hide Start, Act, Step, EngineInv, StepError, Known, Base, DeviceSteps, Racing, Decodes, WaitOk;
    var en0 := Start(d.layers, 2 * g + 1, 2, zero);
    var en3 := Opening(d, g, zero);
    var hs4 := FirstStep(d, g, en3, fuel);
    var en4 := Act(d, Lean(g), en3, Iterate(fuel));
    hs := SecondStep(d, g, en4, hs4, fuel);
    en := Act(d, Lean(g), en4, Iterate(fuel));
    Waits(g);
    var en1 := Act(d, Lean(g), en0, Submit(First(g)));
    var en2 := Act(d, Lean(g), en1, Submit(Second(g)));
    RunStep(d, Lean(g), en4, Iterate(fuel), []);
    RunStep(d, Lean(g), en3, Iterate(fuel), [Iterate(fuel)]);
    RunStep(d, Lean(g), en2, DrainInbox, [Iterate(fuel), Iterate(fuel)]);
    RunStep(d, Lean(g), en1, Submit(Second(g)), [DrainInbox, Iterate(fuel), Iterate(fuel)]);
    RunStep(d, Lean(g), en0, Submit(First(g)), [Submit(Second(g)), DrainInbox, Iterate(fuel), Iterate(fuel)]);
    assert [Iterate(fuel)] + [] == [Iterate(fuel)];
    assert [Iterate(fuel)] + [Iterate(fuel)] == [Iterate(fuel), Iterate(fuel)];
    assert [DrainInbox] + [Iterate(fuel), Iterate(fuel)] == [DrainInbox, Iterate(fuel), Iterate(fuel)];
    assert [Submit(Second(g))] + [DrainInbox, Iterate(fuel), Iterate(fuel)] == [Submit(Second(g)), DrainInbox, Iterate(fuel), Iterate(fuel)];
    assert [Submit(First(g))] + [Submit(Second(g)), DrainInbox, Iterate(fuel), Iterate(fuel)] == BothAdmitted(g, fuel);
  }

  lemma Waits(g: nat)
    ensures WaitOk(First(g)) && WaitOk(Second(g)) && First(g).id == 0 && Second(g).id == 1
  {
  }

  /** Two requests arrive one after the other and both run; a call that needs the whole pool preempts
      both, and the later one is then ahead of the earlier. */
  lemma VictimsOutOfOrder(d: Decoder, g: nat, zero: KV, fuel: nat)
    requires d.layers > 0 && g > 1 && fuel >= DeviceSteps(2, d.layers)
    ensures var en0 := Start(d.layers, 2 * g + 1, 2, zero);
      && EngineRuns.Permitted(d, Lean(g), en0, BothAdmitted(g, fuel))
      && var sys := Run(d, Lean(g), en0, BothAdmitted(g, fuel)).sys;
      && sys.running == [0, 1] && sys.waiting == []
      && PreemptToFree(sys, 2 * g + 1).0.waiting == [1, 0]
  {
    hide Start, Run, EngineInv, DeviceSteps, PreemptToFree, PreemptMany, SelectFrom, Holdings, Reverse, Unshared, AllHeld, Candidates, Evicted, StopsFirst;
    var en, hs := ReachBoth(d, g, zero, fuel);
    hide EngineRuns.Permitted, BothAdmitted, Live, Queues;
    EngineLive(d, Lean(g), en, hs);
    BothCandidates(en.sys);
    VictimsAgree(en.sys, hs, NOTHING, 2 * g + 1);
    BothSelected(en.sys, 2 * g + 1 - NumFree(en.sys));
    var hs', k := PreemptToFreeCorrect(en.sys, hs, NOTHING, 2 * g + 1);
    assert [1, 0] + [] == [1, 0];
  }

  lemma BothCandidates(sys: Sys)
    requires sys.running == [0, 1] && 0 in sys.reqs && 1 in sys.reqs
    requires sys.reqs[0].state == Decoding && sys.reqs[1].state == Decoding
    ensures Candidates(sys, sys.running) == [0, 1]
  {
    assert [0, 1][1..] == [1] && [1][1..] == [];
    assert Candidates(sys, [1]) == [1] + Candidates(sys, []);
  }

  lemma BothSelected(sys: Sys, toFree: int)
    requires 0 in sys.reqs && 1 in sys.reqs && Has(sys.arena, sys.reqs[0]) == Has(sys.arena, sys.reqs[1]) == 2 && toFree == 4
    ensures SelectFrom(Holdings(sys, [0, 1]), toFree, 0) == [1, 0]
  {
    var held := Holdings(sys, [0, 1]);
    assert held == [(0, 2), (1, 2)] && held[..1] == [(0, 2)];
    assert SelectFrom(held[..1], toFree, 2) == [0] + SelectFrom([], toFree, 4);
  }

  // ------------------------------------------------------------------------ the requester itself

  /** One request is admitted to an empty server and prefills in one step. */
  lemma OneAdmitted(d: Decoder, cfg: Config, numBlocks: nat, blockSize: nat, zero: KV, r: Request, fuel: nat) returns (en: Engine, hs: seq<Hist>)
    requires d.layers > 0 && blockSize > 0 && PositiveLimits(cfg) && cfg.eos == None && fuel >= DeviceSteps(1, d.layers)
    requires WaitOk(r) && r.maxNew > 1 && |r.prompt| <= cfg.chunk
    requires CeilDiv(|r.prompt| + r.maxNew, blockSize) + cfg.reserve <= numBlocks
    ensures var en0 := Start(d.layers, numBlocks, blockSize, zero);
      && EngineRuns.Permitted(d, cfg, en0, [Submit(r), DrainInbox, Iterate(fuel)]) && en == Run(d, cfg, en0, [Submit(r), DrainInbox, Iterate(fuel)])
    ensures EngineInv(d, cfg, en, hs) && en.sys.arena.store.pool.blockSize == blockSize
    ensures en.sys.running == [r.id] && en.sys.waiting == [] && r.id in en.sys.reqs && Advanced(r, en.sys.reqs[r.id])
    ensures Has(en.sys.arena, en.sys.reqs[r.id]) == CeilDiv(|r.prompt|, blockSize) && NumFree(en.sys) + CeilDiv(|r.prompt|, blockSize) == numBlocks
  {
    hide Start, Act, EngineInv, CeilDiv, DeviceSteps, WaitOk, Known, Advanced, PositiveLimits, Unshared, AllHeld;
    var en0 := Start(d.layers, numBlocks, blockSize, zero);
    var en2 := OneLoaded(d, cfg, numBlocks, blockSize, zero, r);
    hs := OneStep(d, cfg, en2, r, fuel);
    en := Act(d, cfg, en2, Iterate(fuel));
    var en1 := Act(d, cfg, en0, Submit(r));
    RunStep(d, cfg, en2, Iterate(fuel), []);
    RunStep(d, cfg, en1, DrainInbox, [Iterate(fuel)]);
    RunStep(d, cfg, en0, Submit(r), [DrainInbox, Iterate(fuel)]);
    assert [Iterate(fuel)] + [] == [Iterate(fuel)] && [DrainInbox] + [Iterate(fuel)] == [DrainInbox, Iterate(fuel)];
    assert [Submit(r)] + [DrainInbox, Iterate(fuel)] == [Submit(r), DrainInbox, Iterate(fuel)];
  }

  lemma OneStep(d: Decoder, cfg: Config, en: Engine, r: Request, fuel: nat) returns (hs: seq<Hist>)
    requires EngineInv(d, cfg, en, []) && Unshared(AllHeld(en.sys.arena)) && en.alive
    requires d.layers > 0 && PositiveLimits(cfg) && cfg.eos == None && fuel >= DeviceSteps(1, d.layers)
    requires en.sys.waiting == [r.id] && en.sys.running == [] && en.sys.reqs == map[r.id := r] && en.sys.arena.store.pool.blockSize > 0
    requires WaitOk(r) && r.maxNew > 1 && |r.prompt| <= cfg.chunk
    requires CeilDiv(|r.prompt| + r.maxNew, en.sys.arena.store.pool.blockSize) + cfg.reserve <= NumFree(en.sys)
    ensures var en', need := Act(d, cfg, en, Iterate(fuel)), CeilDiv(|r.prompt|, en.sys.arena.store.pool.blockSize);
      && EngineInv(d, cfg, en', hs) && en'.sys.arena.store.pool.blockSize == en.sys.arena.store.pool.blockSize
      && en'.sys.running == [r.id] && en'.sys.waiting == [] && r.id in en'.sys.reqs && Advanced(r, en'.sys.reqs[r.id])
      && Has(en'.sys.arena, en'.sys.reqs[r.id]) == need && NumFree(en'.sys) + need == NumFree(en.sys)
  {
    hide EngineInv, AllHeld, Unshared, Step, Demand, CeilDiv, DeviceSteps, Schedule;
    CeilDivMono(|r.prompt|, |r.prompt| + r.maxNew, en.sys.arena.store.pool.blockSize);
    var sys := en.sys;
    var sys1 := sys.(waiting := [], reqs := sys.reqs[r.id := r.(state := Prefilling)], running := [r.id]);
    AdmitsOne(cfg, sys, sys1, r);
    assert [r.id] + [] == [r.id];
    DemandOne(cfg, sys1, r.id);
    hs := QuietStep(d, cfg, en, [], fuel, sys1, Batch([r.id], []));
  }

  lemma AdmitsOne(cfg: Config, sys: Sys, sys1: Sys, r: Request)
    requires PositiveLimits(cfg) && sys.waiting == [r.id] && sys.running == [] && sys.reqs == map[r.id := r]
    requires sys.arena.store.pool.blockSize > 0 && CeilDiv(|r.prompt| + r.maxNew, sys.arena.store.pool.blockSize) + cfg.reserve <= NumFree(sys)
    requires sys1 == sys.(waiting := [], reqs := sys.reqs[r.id := r.(state := Prefilling)], running := [r.id])
    ensures Schedule(cfg, sys) == (sys1, Batch([r.id], []))
  {
    hide CeilDiv;
    assert [r.id][1..] == [] && [] + [r.id] == [r.id];
    assert Pick(cfg, sys.reqs, [], Batch([], [])) == Batch([], []);
    assert Admit(cfg, sys, Batch([], [])) == Admit(cfg, sys1, Batch([r.id], []));
  }

  lemma DemandOne(cfg: Config, sys: Sys, id: Id)
    ensures Demand(cfg.chunk, sys.arena, sys.reqs, [id]) == Wants(cfg.chunk, sys.arena, At(sys.reqs, id))
  {
    assert [id][1..] == [];
  }

  /** For every pool: a request whose prompt fills it runs alone; growing it past the pool preempts the
      request itself, and then fails on the cache it has just lost. */
  lemma LosesItsOwnCache(d: Decoder, cfg: Config, numBlocks: nat, blockSize: nat, zero: KV, r: Request, fuel: nat, n: nat)
    requires d.layers > 0 && blockSize > 2 && numBlocks > 0 && PositiveLimits(cfg) && cfg.eos == None && cfg.reserve == 0
    requires fuel >= DeviceSteps(1, d.layers)
    requires WaitOk(r) && r.maxNew == 2 && |r.prompt| + 2 == numBlocks * blockSize && |r.prompt| <= cfg.chunk && n > 2
    ensures var en0, actions := Start(d.layers, numBlocks, blockSize, zero), [Submit(r), DrainInbox, Iterate(fuel)];
      && EngineRuns.Permitted(d, cfg, en0, actions)
      && var sys := Run(d, cfg, en0, actions).sys;
      && sys.running == [r.id]
      && var (after, grown) := TryAllocate(sys, r.id, n);
      && grown == Err(AttributeFault) && after.running == [] && after.waiting == [r.id]
  {
    hide Start, Run, EngineRuns.Permitted, EngineInv, DeviceSteps, CeilDiv, TryAllocate, PositiveLimits, Advanced, Has, WaitOk;
    Filled(numBlocks, blockSize, |r.prompt|, n);
    WaitState(r);
    var en, hs := OneAdmitted(d, cfg, numBlocks, blockSize, zero, r, fuel);
    Grows(d, cfg, en, hs, r, numBlocks, n);
  }

  lemma Filled(numBlocks: nat, bs: nat, p: nat, n: nat)
    requires bs > 2 && numBlocks > 0 && p + 2 == numBlocks * bs && n > 2
    ensures CeilDiv(p + 2, bs) == numBlocks == CeilDiv(p, bs) && CeilDiv(p + n, bs) > numBlocks
  {
    hide CeilDiv;
    CeilDivAdjunction(p + 2, bs, numBlocks);
    CeilDivAdjunction(p, bs, numBlocks);
    CeilDivAdjunction(p + n, bs, numBlocks);
    CeilDivAdjunction(p, bs, numBlocks - 1);
    CeilDivAdjunction(p + 2, bs, numBlocks - 1);
    assert numBlocks * bs == (numBlocks - 1) * bs + bs;
  }

  lemma Grows(d: Decoder, cfg: Config, en: Engine, hs: seq<Hist>, r: Request, numBlocks: nat, n: nat)
    requires EngineInv(d, cfg, en, hs) && en.sys.running == [r.id] && en.sys.waiting == [] && r.id in en.sys.reqs && Advanced(r, en.sys.reqs[r.id])
    requires r.gen == [] && en.sys.arena.store.pool.blockSize > 0
    requires Has(en.sys.arena, en.sys.reqs[r.id]) == numBlocks && NumFree(en.sys) == 0
    requires CeilDiv(|r.prompt| + n, en.sys.arena.store.pool.blockSize) > numBlocks
    ensures var (after, grown) := TryAllocate(en.sys, r.id, n);
      grown == Err(AttributeFault) && after.running == [] && after.waiting == [r.id]
  {
    hide EngineInv, CeilDiv, TryAllocate, Queues, Live, PreemptToFree, Reverse, GrowsOrLoses, Newer, PreemptMany, Evicted, StopsFirst, Candidates;
    var sys := en.sys;
    EngineLive(d, cfg, en, hs);
    RunningHolds(d, cfg, en, hs, r.id);
    var newer := TryAllocateExact(sys, hs, NOTHING, r.id, n);
    OnlyCandidate(sys, r.id, newer);
    var table := sys.arena.caches[sys.reqs[r.id].cache.value].table;
    assert table.numTokens == |r.prompt| && |table.blocks| == numBlocks;
    var needed := CeilDiv(|r.prompt| + n, sys.arena.store.pool.blockSize);
    Loses(sys, r.id, n, needed);
    var hs', k := PreemptToFreeCorrect(sys, hs, NOTHING, needed);
    WithinCandidates(sys, needed, k);
    NobodyLeft(sys, hs, hs', r.id, needed, k);
  }

  lemma Loses(sys: Sys, id: Id, n: nat, needed: nat)
    requires id in sys.reqs && sys.reqs[id].cache.Some? && sys.reqs[id].cache.value < |sys.arena.caches| && sys.arena.store.pool.blockSize > 0
    requires GrowsOrLoses(sys, id, n, []) && NumFree(sys) == 0
    requires var table := sys.arena.caches[sys.reqs[id].cache.value].table;
      needed == CeilDiv(table.numTokens + n, sys.arena.store.pool.blockSize) > |table.blocks|
    ensures TryAllocate(sys, id, n) == (PreemptToFree(sys, needed).0, Err(AttributeFault)) && id in PreemptToFree(sys, needed).1
  {
    hide CeilDiv, TryAllocate, PreemptToFree, GrewOwn;
    assert PreemptMany(sys, []) == sys;
  }

  lemma WithinCandidates(sys: Sys, needed: int, k: nat)
    requires StopsFirst(sys, Reverse(Candidates(sys, sys.running)), needed, k)
    ensures k <= |Candidates(sys, sys.running)|
  {
    hide PreemptMany;
  }

  lemma RunningHolds(d: Decoder, cfg: Config, en: Engine, hs: seq<Hist>, id: Id)
    requires EngineInv(d, cfg, en, hs) && id in en.sys.running && id in en.sys.reqs && en.sys.reqs[id].state == Decoding
    ensures var r := en.sys.reqs[id];
      && r.cache.Some? && r.cache.value < |en.sys.arena.caches|
      && en.sys.arena.caches[r.cache.value].table.numTokens + 1 == |r.prompt| + |r.gen|
  {
    hide Streams, Lives, X.NoStrays, X.Owns;
    X.OkSize(d, en.sys.arena, hs);
  }

  lemma OnlyCandidate(sys: Sys, id: Id, newer: seq<Id>)
    requires sys.running == [id] && Newer(sys, id, newer)
    ensures newer == []
  {
    assert [id][1..] == [];
    assert |Candidates(sys, [id])| <= 1;
  }

  lemma NobodyLeft(sys: Sys, hs: seq<Hist>, hs': seq<Hist>, id: Id, needed: int, k: nat)
    requires sys.running == [id] && sys.waiting == [] && Distinct(sys.running)
    requires k <= |Candidates(sys, sys.running)|
    requires var (sys', victims) := PreemptToFree(sys, needed);
      && sys'.waiting == victims + sys.waiting && Evicted(sys, hs, sys'.(waiting := sys.waiting), hs', victims)
      && victims == Reverse(Candidates(sys, sys.running)[|Candidates(sys, sys.running)| - k..])
      && id in victims
    ensures PreemptToFree(sys, needed).0.running == [] && PreemptToFree(sys, needed).0.waiting == [id]
  {
    hide PreemptToFree;
    var (sys', victims) := PreemptToFree(sys, needed);
    assert [id][1..] == [];
    assert |victims| <= 1 && victims == [id];
    assert Without([id], victims) == Without([], victims) == [];
    assert [id] + [] == [id];
  }
}
