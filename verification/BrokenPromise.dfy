/** One block below the bound on the reserve, admission promises the same block twice: runs in which two
    admitted requests exhaust the pool. */
module BrokenPromise {
  import opened Common
  import opened Tensors
  import opened Decoders
  import opened Paging
  import opened PagingProofs
  import opened Arenas
  import opened ArenaProofs
  import opened ArenaRuns
  import opened Requests
  import opened Scheduling
  import opened Serving
  import opened ForwardProofs
  import X = ExecutionProofs
  import opened LifecycleProofs
  import opened EngineProofs
  import opened EngineRuns
  import opened ExhaustionProofs
  import opened NoExhaustion
  import opened Shortage

  // -------------------------------------------------------------------- a step nobody leaves

  ghost predicate NobodyStops(cfg: Config, reqs: map<Id, Request>, out: Output, ids: seq<Id>) {
    forall id :: id in ids && id in reqs && id in out.tokens ==> !ShouldStop(After(out, reqs[id]), cfg.eos)
  }

  lemma {:induction false} ApplyAllQuiet(d: Decoder, cfg: Config, en: Engine, hs: seq<Hist>, pending: seq<Id>, out: Output)
    requires Mid(d, cfg, en, hs, pending, out, true) && NobodyStops(cfg, en.sys.reqs, out, pending)
    ensures var sys' := ApplyAll(cfg, en, out, pending).sys;
      && sys' == en.sys.(reqs := sys'.reqs)
      && forall id :: id in en.sys.reqs ==>
           id in sys'.reqs && sys'.reqs[id] == if id in pending then After(out, en.sys.reqs[id]) else en.sys.reqs[id]
    decreases |pending|
  {
    hide Mid, ApplyOne, Queues, Streams, RunOk, X.Reported, WellFormed, After, Retired, Stops;
    if pending != [] {
      var id := pending[0];
      MidFacts(d, cfg, en, hs, pending, out, true);
      MidDistinct(d, cfg, en, hs, pending, out);
      ApplyOneIs(d, cfg, en, out, id);
      var hs1 := ApplyOneMid(d, cfg, en, hs, pending, out);
      var en1 := ApplyOne(cfg, en, out, id);
      assert en1.sys.reqs == en.sys.reqs[id := After(out, en.sys.reqs[id])];
      assert forall j :: j in pending <==> j == id || j in pending[1..];
      ApplyAllQuiet(d, cfg, en1, hs1, pending[1..], out);
    }
  }

  lemma MidDistinct(d: Decoder, cfg: Config, en: Engine, hs: seq<Hist>, pending: seq<Id>, out: Output)
    requires Mid(d, cfg, en, hs, pending, out, true) && pending != []
    ensures pending[0] !in pending[1..]
    ensures en.sys.reqs[pending[0]].id == pending[0]
  {
  }

  /** Every request in the batch has more than one token to go. */
  ghost predicate Unhurried(chunk: nat, reqs: map<Id, Request>, ids: seq<Id>) {
    forall id :: id in ids && id in reqs ==>
      && |reqs[id].gen| + 1 < reqs[id].maxNew
      && (reqs[id].state == Prefilling ==> reqs[id].offset + chunk >= |reqs[id].prompt|)
  }

  /** What such a step makes of the request. */
  ghost predicate Advanced(r: Request, r': Request) {
    && r'.state == Decoding && |r'.gen| == |r.gen| + 1 && r'.prompt == r.prompt && r'.maxNew == r.maxNew
    && r'.offset == |r.prompt|
  }

  lemma AdvancedAfter(d: Decoder, cfg: Config, r: Request, r': Request, a: Arena, out: Output)
    requires RunOk(d, cfg.eos, r) && X.Reported(d, cfg.chunk, r, r', a, out)
    requires r.state == Prefilling ==> r.offset + cfg.chunk >= |r.prompt|
    ensures r.id in out.tokens && Advanced(r, After(out, r'))
  {
    hide X.Fed, Next, Greedy, X.Held;
  }

  lemma QuietStep(d: Decoder, cfg: Config, en: Engine, hs: seq<Hist>, fuel: nat, sys: Sys, b: Batch) returns (hs': seq<Hist>)
    requires EngineInv(d, cfg, en, hs) && Schedule(cfg, en.sys) == (sys, b) && b.prefill + b.decode != []
    requires cfg.chunk > 0 && cfg.eos == None && Unshared(AllHeld(sys.arena)) && sys.arena.store.pool.blockSize > 0
    requires fuel >= DeviceSteps(|b.prefill + b.decode|, d.layers) && Unhurried(cfg.chunk, sys.reqs, b.prefill + b.decode)
    requires Demand(cfg.chunk, sys.arena, sys.reqs, b.prefill + b.decode) <= NumFree(sys)
    ensures var ids := b.prefill + b.decode;
      var sys' := Step(d, cfg, en, fuel).sys;
      && EngineInv(d, cfg, Step(d, cfg, en, fuel), hs')
      && sys'.waiting == sys.waiting && sys'.running == sys.running
      && Unshared(AllHeld(sys'.arena)) && sys'.arena.store.pool.blockSize == sys.arena.store.pool.blockSize
      && NumFree(sys') + Demand(cfg.chunk, sys.arena, sys.reqs, ids) == NumFree(sys)
      && (forall j :: j in sys.reqs ==> j in sys'.reqs && if j in ids then Advanced(sys.reqs[j], sys'.reqs[j]) else sys'.reqs[j] == sys.reqs[j])
      && (forall j :: j in sys.running ==>
            Has(sys'.arena, At(sys'.reqs, j)) == Has(sys.arena, At(sys.reqs, j)) + if j in ids then Wants(cfg.chunk, sys.arena, At(sys.reqs, j)) else 0)
  {
    hide EngineInv, Schedule, Execute, X.ExecOk, Mid, ApplyAll, Unshared, AllHeld, Wants, Demand, Has, After, X.Reported, RunOk, DeviceSteps, Unhurried, X.Touched, X.AllReported, NobodyStops;
    hs' := StepKeeps(d, cfg, en, hs, fuel);
    ScheduleKeeps(d, cfg, en, hs);
    var en0, ids := en.(sys := sys), b.prefill + b.decode;
    ExecuteExact(d, cfg, en0, b, hs, fuel);
    var hs1 := ExecuteMid(d, cfg, en0, b, hs, fuel);
    var e := Execute(d, cfg, sys, b, fuel);
    var en1 := en.(sys := sys.(reqs := e.reqs, arena := e.arena));
    assert e.error.None?;
    QuietBatch(d, cfg, en0, b, hs, fuel);
    ApplyAllQuiet(d, cfg, en1, hs1, ids, e.out);
    assert b.prefill != [] || b.decode != [];
    var sys' := ApplyAll(cfg, en1, e.out, ids).sys;
    assert Step(d, cfg, en, fuel).sys == sys';
    forall j | j in sys.running ensures Has(sys'.arena, At(sys'.reqs, j)) == Has(e.arena, At(e.reqs, j)) {
      HasAfter(d, cfg, en0, hs, sys', e, ids, j);
    }
  }

  lemma HasAfter(d: Decoder, cfg: Config, en: Engine, hs: seq<Hist>, sys': Sys, e: Exec, ids: seq<Id>, j: Id)
    requires EngineInv(d, cfg, en, hs) && j in en.sys.running && (forall i :: i in en.sys.reqs ==> i in e.reqs)
    requires sys'.arena == e.arena && forall i :: i in e.reqs ==> i in sys'.reqs && sys'.reqs[i] == if i in ids then After(e.out, e.reqs[i]) else e.reqs[i]
    ensures Has(sys'.arena, At(sys'.reqs, j)) == Has(e.arena, At(e.reqs, j))
  {
    hide EngineInv;
    InvQueues(d, cfg, en, hs);
    assert j in en.sys.reqs;
  }

  /** The batch just run: everybody advances by a token, and nobody is done. */
  lemma QuietBatch(d: Decoder, cfg: Config, en: Engine, b: Batch, hs: seq<Hist>, fuel: nat)
    requires EngineInv(d, cfg, en, hs) && Distinct(b.prefill + b.decode) && cfg.eos == None
    requires forall id :: id in b.prefill + b.decode ==>
      && id in en.sys.running && id in en.sys.reqs
      && en.sys.reqs[id].state == if id in b.prefill then Prefilling else Decoding
    requires Unhurried(cfg.chunk, en.sys.reqs, b.prefill + b.decode)
    requires Execute(d, cfg, en.sys, b, fuel).error.None?
    ensures var e := Execute(d, cfg, en.sys, b, fuel);
      && NobodyStops(cfg, e.reqs, e.out, b.prefill + b.decode)
      && e.reqs.Keys == en.sys.reqs.Keys
      && (forall id :: id in b.prefill + b.decode ==> Advanced(en.sys.reqs[id], After(e.out, e.reqs[id])))
      && (forall id :: id in en.sys.reqs && id !in b.prefill + b.decode ==> e.reqs[id] == en.sys.reqs[id])
  {
    hide Execute, X.ExecOk, X.Ready, X.Held, X.Fed, Streams, Greedy, X.Reported, After, Advanced;
    forall id | id in b.prefill + b.decode
      ensures en.sys.reqs[id].id == id && X.Ready(d, en.sys.reqs[id], en.sys.arena)
    {
      ReadyFrom(d, cfg, en.sys.reqs[id], en.sys.arena);
    }
    var hs1 := X.BatchCorrect(d, cfg, en.sys, b, hs, fuel);
    var e := Execute(d, cfg, en.sys, b, fuel);
    forall id | id in b.prefill + b.decode
      ensures Advanced(en.sys.reqs[id], After(e.out, e.reqs[id])) && !ShouldStop(After(e.out, e.reqs[id]), cfg.eos)
    {
      var r := en.sys.reqs[id];
      assert RunOk(d, cfg.eos, r) && WellFormed(r);
      AdvancedAfter(d, cfg, r, e.reqs[id], e.arena, e.out);
      StillGoing(cfg, r, After(e.out, e.reqs[id]));
    }
  }

  lemma StillGoing(cfg: Config, r: Request, r': Request)
    requires cfg.eos == None && Advanced(r, r') && |r.gen| + 1 < r.maxNew
    ensures !ShouldStop(r', cfg.eos)
  {
  }

  // --------------------------------------------------------------------------------- the runs

  /** Two at a time, with a reserve one block short of what one of them can grow by. */
  function Lean(g: nat): Config {
    Config(2, if g > 0 then g - 1 else 0, 1, None, 8)
  }

  /** Grows from one block of two tokens to `g + 1`. */
  function First(g: nat): Request {
    Request(0, [7, 7], None, 2 * g, Waiting, 0, [], None, 0)
  }

  /** Grows from two blocks to `g + 1`. */
  function Second(g: nat): Request {
    Request(1, [8, 8, 8], None, if g > 0 then 2 * g - 1 else 0, Waiting, 0, [], None, 0)
  }

  function Iterates(n: nat, fuel: nat): seq<Action> {
    if n == 0 then [] else [Iterate(fuel)] + Iterates(n - 1, fuel)
  }

  function Story(g: nat, fuel: nat): seq<Action> {
    [Submit(First(g)), Submit(Second(g)), DrainInbox] + Iterates(2 * g, fuel)
  }

  ghost predicate Base(d: Decoder, g: nat, en: Engine, hs: seq<Hist>) {
    && EngineInv(d, Lean(g), en, hs) && Unshared(AllHeld(en.sys.arena)) && en.sys.arena.store.pool.blockSize == 2
    && en.alive && 0 in en.sys.reqs && 1 in en.sys.reqs
  }

  ghost predicate Decodes(en: Engine, id: Id, prompt: nat, gen: nat, maxNew: nat, has: nat)
    requires id in en.sys.reqs
  {
    var r := en.sys.reqs[id];
    r.state == Decoding && |r.prompt| == prompt && |r.gen| == gen && r.maxNew == maxNew && r.offset == prompt && Has(en.sys.arena, r) == has
  }

  /** Both decode, each with a cache of `k + 1` tokens; the rest of the pool is free. */
  ghost predicate Racing(d: Decoder, g: nat, en: Engine, hs: seq<Hist>, k: nat) {
    && Base(d, g, en, hs) && en.sys.waiting == [] && en.sys.running == [0, 1] && 2 <= k < 2 * g
    && Decodes(en, 0, 2, k, 2 * g, CeilDiv(k + 1, 2)) && Decodes(en, 1, 3, k - 1, 2 * g - 1, CeilDiv(k + 1, 2))
    && NumFree(en.sys) + 2 * CeilDiv(k + 1, 2) == 2 * g + 1
  }

  lemma Opening(d: Decoder, g: nat, zero: KV) returns (en: Engine)
    requires d.layers > 0
    ensures var en0 := Start(d.layers, 2 * g + 1, 2, zero);
      && en == Act(d, Lean(g), Act(d, Lean(g), Act(d, Lean(g), en0, Submit(First(g))), Submit(Second(g))), DrainInbox)
      && !Known(en0, 0) && !Known(Act(d, Lean(g), en0, Submit(First(g))), 1)
    ensures Base(d, g, en, []) && en.sys.waiting == [0, 1] && en.sys.running == [] && NumFree(en.sys) == 2 * g + 1
    ensures en.sys.reqs[0] == First(g) && en.sys.reqs[1] == Second(g)
  {
    hide Start, Drain, EngineInv, Unshared, AllHeld;
    var en0 := Start(d.layers, 2 * g + 1, 2, zero);
    Empty(d, g, zero);
    var en2 := en0.(inbox := [First(g), Second(g)]);
    assert [] + [First(g)] == [First(g)] && [First(g)] + [Second(g)] == [First(g), Second(g)];
    assert Act(d, Lean(g), Act(d, Lean(g), en0, Submit(First(g))), Submit(Second(g))) == en2;
    en := Drain(en2);
    OpeningInv(d, g, en0, en2);
    DrainTwo(g, en2);
  }

  lemma Empty(d: Decoder, g: nat, zero: KV)
    requires d.layers > 0
    ensures var en := Start(d.layers, 2 * g + 1, 2, zero);
      && RunInv(d, Lean(g), en, []) && en.alive && en.inbox == [] && en.emitters == []
      && en.sys == Sys(map[], [], [], [], en.sys.arena)
      && en.sys.arena.store.pool.blockSize == 2 && NumFree(en.sys) == 2 * g + 1 && Unshared(AllHeld(en.sys.arena))
  {
    hide RunInv;
    StartOk(d, Lean(g), 2 * g + 1, 2, zero);
    assert AllHeld(Start(d.layers, 2 * g + 1, 2, zero).sys.arena) == multiset{};
  }

  lemma DrainTwo(g: nat, en: Engine)
    requires en.inbox == [First(g), Second(g)] && en.emitters == [] && en.sys.reqs == map[] && en.sys.waiting == []
    ensures Drain(en) == en.(inbox := [], emitters := [0, 1], sys := en.sys.(reqs := map[0 := First(g), 1 := Second(g)], waiting := [0, 1]))
  {
    assert en.inbox[1..] == [Second(g)] && [Second(g)][1..] == [];
    var en1 := en.(inbox := [Second(g)], emitters := en.emitters + [0], sys := AddRequest(en.sys, First(g)));
    var en2 := en1.(inbox := [], emitters := en1.emitters + [1], sys := AddRequest(en1.sys, Second(g)));
    assert First(g).(state := Waiting) == First(g) && Second(g).(state := Waiting) == Second(g);
    assert Drain(en) == Drain(en1);
    assert Drain(en1) == Drain(en2) == en2;
    assert en2.emitters == [0, 1] && en2.sys.waiting == [0, 1] && en2.sys.reqs == map[0 := First(g), 1 := Second(g)];
  }

  lemma OpeningInv(d: Decoder, g: nat, en0: Engine, en2: Engine)
    requires RunInv(d, Lean(g), en0, []) && en0.alive && en0.inbox == [] && en0.sys.reqs == map[]
    requires en2 == en0.(inbox := [First(g), Second(g)])
    ensures EngineInv(d, Lean(g), Drain(en2), []) && Drain(en2).alive
  {
    hide X.ExecOk, Lives;
    DrainKeeps(d, Lean(g), en2, []);
  }

  /** The first is admitted against an empty pool and claims the block of its prompt. */
  lemma FirstStep(d: Decoder, g: nat, en: Engine, fuel: nat) returns (hs': seq<Hist>)
    requires d.layers > 0 && g > 0 && Base(d, g, en, []) && fuel >= DeviceSteps(2, d.layers)
    requires en.sys.waiting == [0, 1] && en.sys.running == [] && NumFree(en.sys) == 2 * g + 1
    requires en.sys.reqs[0] == First(g) && en.sys.reqs[1] == Second(g)
    ensures var en' := Act(d, Lean(g), en, Iterate(fuel));
      && Base(d, g, en', hs') && en'.sys.waiting == [1] && en'.sys.running == [0] && NumFree(en'.sys) == 2 * g
      && Decodes(en', 0, 2, 1, 2 * g, 1) && en'.sys.reqs[1] == Second(g)
  {
    hide EngineInv, AllHeld, Unshared, Step, Demand;
    var sys := en.sys;
    var sys1 := sys.(waiting := [1], reqs := sys.reqs[0 := First(g).(state := Prefilling)], running := [0]);
    AdmitsHead(g, sys, sys1, 0, Batch([], []));
    assert Schedule(Lean(g), sys) == (sys1, Batch([0], []));
    assert [0] + [] == [0];
    DemandOf(g, sys1, [0]);
    hs' := QuietStep(d, Lean(g), en, [], fuel, sys1, Batch([0], []));
    StepAlive(d, Lean(g), en, [], fuel);
  }

  lemma DemandOf(g: nat, sys: Sys, ids: seq<Id>)
    requires 1 <= |ids| <= 2
    ensures Demand(Lean(g).chunk, sys.arena, sys.reqs, ids) ==
      Wants(Lean(g).chunk, sys.arena, At(sys.reqs, ids[0])) + if |ids| == 2 then Wants(Lean(g).chunk, sys.arena, At(sys.reqs, ids[1])) else 0
  {
    if |ids| == 2 {
      assert ids[1..][1..] == [];
    }
  }

  lemma AdmitsHead(g: nat, sys: Sys, sys1: Sys, id: Id, b: Batch)
    requires sys.waiting != [] && sys.waiting[0] == id && id in sys.reqs && |sys.running| < 2 && b.prefill == []
    requires sys1 == sys.(waiting := sys.waiting[1..], reqs := sys.reqs[id := sys.reqs[id].(state := Prefilling)], running := sys.running + [id])
    requires Needed(sys, sys.reqs[id]) <= Available(Lean(g), sys)
    ensures Admit(Lean(g), sys, b) == (sys1, Batch([id], b.decode))
  {
    var b1 := b.(prefill := b.prefill + [id]);
    assert b1 == Batch([id], b.decode);
    assert Admit(Lean(g), sys, b) == Admit(Lean(g), sys1, b1);
  }

  lemma StepAlive(d: Decoder, cfg: Config, en: Engine, hs: seq<Hist>, fuel: nat)
    requires EngineInv(d, cfg, en, hs)
    ensures Step(d, cfg, en, fuel).alive == en.alive
  {
    StepKeepsInbox(d, cfg, en, hs, fuel);
  }

  lemma DecodeWants(d: Decoder, g: nat, en: Engine, hs: seq<Hist>, id: Id)
    requires Base(d, g, en, hs) && id in en.sys.running && id in en.sys.reqs && en.sys.reqs[id].state == Decoding
    ensures var r := en.sys.reqs[id];
      Wants(Lean(g).chunk, en.sys.arena, r) == Max(0, CeilDiv(|r.prompt| + |r.gen|, 2) - Has(en.sys.arena, r))
  {
    hide Has, X.ExecOk, Lives, Streams, AllHeld, Unshared;
  }

  /** The second is admitted against what is free and not reserved, though the first will need it: when
      one block of growth is all there is, the pool runs out at once. */
  lemma SecondStep(d: Decoder, g: nat, en: Engine, hs: seq<Hist>, fuel: nat) returns (hs': seq<Hist>)
    requires d.layers > 0 && g > 0 && Base(d, g, en, hs) && fuel >= DeviceSteps(2, d.layers)
    requires en.sys.waiting == [1] && en.sys.running == [0] && NumFree(en.sys) == 2 * g
    requires Decodes(en, 0, 2, 1, 2 * g, 1) && en.sys.reqs[1] == Second(g)
    ensures g == 1 ==> StepError(d, Lean(g), en, fuel) == Some(OutOfBlocks)
    ensures g > 1 ==> Racing(d, g, Act(d, Lean(g), en, Iterate(fuel)), hs', 2)
  {
    hide EngineInv, AllHeld, Unshared, Step, Demand, Schedule, Execute;
    var sys := en.sys;
    var sys1 := sys.(waiting := [], reqs := sys.reqs[1 := Second(g).(state := Prefilling)], running := [0, 1]);
    var b := Batch([1], [0]);
    AdmitsSecond(g, sys, sys1);
    assert [1] + [0] == [1, 0];
    DemandOf(g, sys1, [1, 0]);
    DecodeWants(d, g, en, hs, 0);
    hs' := hs;
    if g > 1 {
      hs' := QuietStep(d, Lean(g), en, hs, fuel, sys1, b);
      StepAlive(d, Lean(g), en, hs, fuel);
    } else {
      ScheduleKeeps(d, Lean(g), en, hs);
      ExecuteExact(d, Lean(g), en.(sys := sys1), b, hs, fuel);
    }
  }

  lemma AdmitsSecond(g: nat, sys: Sys, sys1: Sys)
    requires g > 0 && sys.waiting == [1] && sys.running == [0] && NumFree(sys) == 2 * g && sys.arena.store.pool.blockSize == 2
    requires 0 in sys.reqs && sys.reqs[0].state == Decoding && 1 in sys.reqs && sys.reqs[1] == Second(g)
    requires sys1 == sys.(waiting := [], reqs := sys.reqs[1 := Second(g).(state := Prefilling)], running := [0, 1])
    ensures Schedule(Lean(g), sys) == (sys1, Batch([1], [0]))
  {
    hide Admit;
    assert sys.running[1..] == [];
    assert Pick(Lean(g), sys.reqs, [0], Batch([], [])) == Pick(Lean(g), sys.reqs, [], Batch([], [0])) == Batch([], [0]);
    AdmitsHead(g, sys, sys1, 1, Batch([], [0]));
  }

  lemma BothDecode(g: nat, sys: Sys)
    requires sys.waiting == [] && sys.running == [0, 1] && 0 in sys.reqs && 1 in sys.reqs
    requires sys.reqs[0].state == Decoding && sys.reqs[1].state == Decoding
    ensures Schedule(Lean(g), sys) == (sys, Batch([], [0, 1]))
  {
    assert sys.running[1..] == [1] && [1][1..] == [];
    assert Pick(Lean(g), sys.reqs, [0, 1], Batch([], [])) == Pick(Lean(g), sys.reqs, [1], Batch([], [0])) == Pick(Lean(g), sys.reqs, [], Batch([], [0, 1]));
  }

  lemma BothWant(d: Decoder, g: nat, en: Engine, hs: seq<Hist>, k: nat)
    requires Racing(d, g, en, hs, k)
    ensures Demand(Lean(g).chunk, en.sys.arena, en.sys.reqs, [0, 1]) == 2 * (CeilDiv(k + 2, 2) - CeilDiv(k + 1, 2))
    ensures forall id :: id in [0, 1] ==> Wants(Lean(g).chunk, en.sys.arena, At(en.sys.reqs, id)) == CeilDiv(k + 2, 2) - CeilDiv(k + 1, 2)
  {
    hide EngineInv, AllHeld, Unshared, Demand, Has, Wants;
    DemandOf(g, en.sys, [0, 1]);
    DecodeWants(d, g, en, hs, 0);
    DecodeWants(d, g, en, hs, 1);
  }

  /** Both take a block every other step, until both want one and only one is left. */
  lemma LaterStep(d: Decoder, g: nat, en: Engine, hs: seq<Hist>, k: nat, fuel: nat) returns (hs': seq<Hist>)
    requires d.layers > 0 && Racing(d, g, en, hs, k) && fuel >= DeviceSteps(2, d.layers)
    ensures k + 1 == 2 * g ==> StepError(d, Lean(g), en, fuel) == Some(OutOfBlocks)
    ensures k + 1 < 2 * g ==> Racing(d, g, Act(d, Lean(g), en, Iterate(fuel)), hs', k + 1)
  {
    hide EngineInv, AllHeld, Unshared, Demand, Execute, Has, Wants, Step, Schedule;
    var sys, b := en.sys, Batch([], [0, 1]);
    BothDecode(g, sys);
    assert [] + [0, 1] == [0, 1];
    BothWant(d, g, en, hs, k);
    hs' := hs;
    if k + 1 < 2 * g {
      hs' := QuietStep(d, Lean(g), en, hs, fuel, sys, b);
      StepAlive(d, Lean(g), en, hs, fuel);
    } else {
      ExecuteExact(d, Lean(g), en, b, hs, fuel);
    }
  }

  lemma {:induction false} RaceLost(d: Decoder, g: nat, en: Engine, hs: seq<Hist>, k: nat, fuel: nat)
    requires d.layers > 0 && Racing(d, g, en, hs, k) && fuel >= DeviceSteps(2, d.layers)
    ensures !NeverExhausted(d, Lean(g), en, Iterates(2 * g - k, fuel)) && EngineRuns.Permitted(d, Lean(g), en, Iterates(2 * g - k, fuel))
    decreases 2 * g - k
  {
    hide StepError, Act, DeviceSteps, EngineInv, Decodes, Base;
    var hs' := LaterStep(d, g, en, hs, k, fuel);
    BaseMeans(d, g, en, hs);
    var rest := Iterates(2 * g - k - 1, fuel);
    assert ([Iterate(fuel)] + rest)[1..] == rest;
    var en' := Act(d, Lean(g), en, Iterate(fuel));
    if k + 1 < 2 * g {
      RaceLost(d, g, en', hs', k + 1, fuel);
    } else {
      assert rest == [];
    }
  }

  /** For two requests at a time the reserve bound cannot be lowered: for every growth `g`, with a
      reserve a single block below the bound, there is a permitted run in which both pass admission
      and the pool runs out while they decode. */
  lemma PromiseBroken(d: Decoder, g: nat, zero: KV, fuel: nat)
    requires d.layers > 0 && g > 0 && fuel >= DeviceSteps(2, d.layers)
    ensures EngineRuns.Permitted(d, Lean(g), Start(d.layers, 2 * g + 1, 2, zero), Story(g, fuel))
    ensures Lean(g).maxPrefills == 1 && Modest(Lean(g), 2, g, Story(g, fuel)) && (Lean(g).maxBatch - 1) * g == Lean(g).reserve + 1
    ensures !NeverExhausted(d, Lean(g), Start(d.layers, 2 * g + 1, 2, zero), Story(g, fuel))
  {
    hide Step, EngineInv, StepError, Known, Act, Base, DeviceSteps, Racing, Decodes;
    var story := Story(g, fuel);
    var en0 := Start(d.layers, 2 * g + 1, 2, zero);
    var en3 := Opening(d, g, zero);
    var hs4 := FirstStep(d, g, en3, fuel);
    var en4 := Act(d, Lean(g), en3, Iterate(fuel));
    var hs5 := SecondStep(d, g, en4, hs4, fuel);
    var en5 := Act(d, Lean(g), en4, Iterate(fuel));
    var rest5 := Iterates(2 * g - 2, fuel);
    var rest4, rest3 := [Iterate(fuel)] + rest5, [Iterate(fuel)] + ([Iterate(fuel)] + rest5);
    assert rest4[1..] == rest5 && rest3[1..] == rest4;
    assert rest3 == Iterates(2 * g, fuel);
    BaseMeans(d, g, en4, hs4);
    if g > 1 {
      RaceLost(d, g, en5, hs5, 2, fuel);
      Earlier(d, g, en4, rest4, en5, rest5);
    } else {
      assert rest5 == [];
    }
    Earlier(d, g, en3, rest3, en4, rest4);
    var en1 := Act(d, Lean(g), en0, story[0]);
    var en2 := Act(d, Lean(g), en1, story[1]);
    assert story[3..] == rest3;
    Earlier(d, g, en2, story[2..], en3, story[3..]);
    Earlier(d, g, en1, story[1..], en2, story[2..]);
    Earlier(d, g, en0, story, en1, story[1..]);
    StoryModest(g, fuel);
  }

  lemma {:induction false} IteratesOnly(n: nat, fuel: nat)
    ensures |Iterates(n, fuel)| == n && forall i :: 0 <= i < n ==> Iterates(n, fuel)[i] == Iterate(fuel)
  {
    if n > 0 {
      IteratesOnly(n - 1, fuel);
    }
  }

  lemma StoryModest(g: nat, fuel: nat)
    requires g > 0
    ensures Modest(Lean(g), 2, g, Story(g, fuel))
  {
    IteratesOnly(2 * g, fuel);
    var story := Story(g, fuel);
    forall i | 3 <= i < |story| ensures story[i] == Iterate(fuel) {
      assert story[i] == Iterates(2 * g, fuel)[i - 3];
    }
    forall i | 0 <= i < |story| && story[i].Submit? ensures Growth(2, story[i].r) <= g {
    }
  }

  lemma BaseMeans(d: Decoder, g: nat, en: Engine, hs: seq<Hist>)
    requires Base(d, g, en, hs) || exists k :: Racing(d, g, en, hs, k)
    ensures en.alive
  {
  }

  lemma Earlier(d: Decoder, g: nat, en: Engine, actions: seq<Action>, en': Engine, rest: seq<Action>)
    requires actions != [] && rest == actions[1..] && en' == Act(d, Lean(g), en, actions[0])
    requires !NeverExhausted(d, Lean(g), en', rest) && EngineRuns.Permitted(d, Lean(g), en', rest)
    requires actions[0].Submit? ==> WaitOk(actions[0].r) && !Known(en, actions[0].r.id)
    ensures !NeverExhausted(d, Lean(g), en, actions) && EngineRuns.Permitted(d, Lean(g), en, actions)
  {
  }
}
