/** Everything together: when admission's promise is kept and the device does not fail, every request
    is served to the end, with exactly the output of serving it alone. */
module FullService {
  import opened Common
  import opened Tensors
  import opened Decoders
  import opened Paging
  import opened PagingProofs
  import opened Arenas
  import opened ArenaProofs
  import opened Requests
  import opened Scheduling
  import opened Serving
  import opened ForwardProofs
  import X = ExecutionProofs
  import opened LifecycleProofs
  import opened EngineProofs
  import opened EngineRuns
  import opened Shapes
  import opened LivenessProofs
  import opened ExhaustionProofs
  import opened NoExhaustion
  import opened Shortage

  /** The stream of a request that stopped on its own terms. */
  ghost predicate Clean(r: Request, events: seq<Event>) {
    exists stopped :: events == Tokens(r.id, r.gen) + [DoneEvent(r.id, false, stopped)]
  }

  ghost predicate AllClean(en: Engine) {
    forall id :: id in en.sys.finished && id in en.sys.reqs ==> Clean(en.sys.reqs[id], For(en.log, id))
  }

  lemma CleanAlike(r: Request, r': Request, events: seq<Event>)
    requires Clean(r, events) && r'.id == r.id && r'.gen == r.gen
    ensures Clean(r', events)
  {
    hide Tokens;
    var stopped :| events == Tokens(r.id, r.gen) + [DoneEvent(r.id, false, stopped)];
    assert events == Tokens(r'.id, r'.gen) + [DoneEvent(r'.id, false, stopped)];
  }

  lemma ApplyOneClean(d: Decoder, cfg: Config, en: Engine, hs: seq<Hist>, pending: seq<Id>, out: Output)
    requires Mid(d, cfg, en, hs, pending, out, true) && pending != [] && AllClean(en)
    ensures AllClean(ApplyOne(cfg, en, out, pending[0]))
  {
    hide Mid, Queues, Streams, RunOk, X.Reported, WellFormed, ApplyOne, Stops, HitEos, After, Progressed, Retired, AllClean;
    var id := pending[0];
    MidFacts(d, cfg, en, hs, pending, out, true);
    ApplyOneIs(d, cfg, en, out, id);
    var r := en.sys.reqs[id];
    var r' := After(out, r);
    AfterGen(d, cfg, en.sys.arena, out, r);
    OwnId(en, id);
    if id in out.tokens && ShouldStop(r', cfg.eos) {
      RetiredClean(cfg, en, r', out.tokens[id], HitEos(r', cfg.eos));
    } else {
      ProgressedClean(cfg, en, r', Produced(out, id));
    }
  }

  lemma OwnId(en: Engine, id: Id)
    requires Queues(en.sys) && id in en.sys.reqs
    ensures en.sys.reqs[id].id == id
  {
  }

  lemma AfterGen(d: Decoder, cfg: Config, a: Arena, out: Output, r: Request)
    requires RunOk(d, cfg.eos, r) && X.Reported(d, cfg.chunk, r, r, a, out)
    ensures After(out, r).gen == if r.id in out.tokens then r.gen + [out.tokens[r.id]] else r.gen
    ensures After(out, r).id == r.id
  {
    hide X.Reported, RunOk;
  }

  lemma ProgressedClean(cfg: Config, en: Engine, r: Request, events: seq<Event>)
    requires Queues(en.sys) && r.id in en.sys.running && AllClean(en)
    requires |events| <= 1 && forall ev :: ev in events ==> ev.id == r.id
    ensures AllClean(Progressed(en, r, events))
  {
    hide For, Clean;
    forall id | id != r.id ensures For(en.log + events, id) == For(en.log, id) {
      if events == [] {
        assert en.log + events == en.log;
      } else {
        assert events == [events[0]] && events[0] in events;
        ForPush(en.log, events[0], id);
      }
    }
  }

  lemma RetiredClean(cfg: Config, en: Engine, r: Request, token: Token, stopped: bool)
    requires Queues(en.sys) && Streams(cfg, en) && r.id in en.sys.running && r.id in en.sys.reqs && AllClean(en)
    requires r.gen == en.sys.reqs[r.id].gen + [token]
    ensures AllClean(Retired(en, r, [TokenEvent(r.id, token), DoneEvent(r.id, false, stopped)]))
  {
    hide For, Tokens, Release, Clean, Closed;
    var events := [TokenEvent(r.id, token), DoneEvent(r.id, false, stopped)];
    var en' := Retired(en, r, events);
    forall id | id in en'.sys.finished && id in en'.sys.reqs ensures Clean(en'.sys.reqs[id], For(en'.log, id)) {
      ForPush2(en.log, TokenEvent(r.id, token), DoneEvent(r.id, false, stopped), id);
      if id == r.id {
        TokensPush(r.id, en.sys.reqs[r.id].gen, token);
        assert For(en.log, id) + events == Tokens(r.id, r.gen) + [DoneEvent(r.id, false, stopped)];
        NowClean(r, For(en'.log, id), stopped);
        CleanAlike(r, en'.sys.reqs[id], For(en'.log, id));
      } else {
        assert id in en.sys.finished && en'.sys.reqs[id] == en.sys.reqs[id];
      }
    }
  }

  lemma NowClean(r: Request, events: seq<Event>, stopped: bool)
    requires events == Tokens(r.id, r.gen) + [DoneEvent(r.id, false, stopped)]
    ensures Clean(r, events)
  {
  }

  lemma {:induction false} ApplyAllClean(d: Decoder, cfg: Config, en: Engine, hs: seq<Hist>, pending: seq<Id>, out: Output)
    requires Mid(d, cfg, en, hs, pending, out, true) && AllClean(en)
    ensures AllClean(ApplyAll(cfg, en, out, pending))
    decreases |pending|
  {
    hide Mid, ApplyOne, AllClean;
    if pending != [] {
      ApplyOneClean(d, cfg, en, hs, pending, out);
      var hs1 := ApplyOneMid(d, cfg, en, hs, pending, out);
      ApplyAllClean(d, cfg, ApplyOne(cfg, en, out, pending[0]), hs1, pending[1..], out);
    }
  }

  lemma ScheduleClean(cfg: Config, en: Engine)
    requires Queues(en.sys) && AllClean(en)
    ensures AllClean(en.(sys := Schedule(cfg, en.sys).0))
  {
    hide Schedule, For, Clean, Stopped, Fitted;
    var k := ScheduleDecides(cfg, en.sys);
    var sys' := Schedule(cfg, en.sys).0;
    forall id | id in sys'.finished && id in sys'.reqs ensures id in en.sys.reqs && sys'.reqs[id] == en.sys.reqs[id] {
      assert id !in en.sys.waiting && forall x :: x in en.sys.waiting[..k] ==> x in en.sys.waiting;
    }
  }

  lemma ExecuteClean(d: Decoder, cfg: Config, en: Engine, b: Batch, hs: seq<Hist>, fuel: nat)
    requires EngineInv(d, cfg, en, hs) && Distinct(b.prefill + b.decode) && AllClean(en)
    requires forall id :: id in b.prefill + b.decode ==>
      && id in en.sys.running && id in en.sys.reqs
      && en.sys.reqs[id].state == if id in b.prefill then Prefilling else Decoding
    ensures var e := Execute(d, cfg, en.sys, b, fuel); AllClean(en.(sys := en.sys.(reqs := e.reqs, arena := e.arena)))
  {
    hide Execute, X.ExecOk, X.Ready, X.AllReported, Streams, X.Held, For, Clean;
    forall id | id in b.prefill + b.decode
      ensures en.sys.reqs[id].id == id && X.Ready(d, en.sys.reqs[id], en.sys.arena)
    {
      ReadyFrom(d, cfg, en.sys.reqs[id], en.sys.arena);
    }
    var hs1 := X.BatchCorrect(d, cfg, en.sys, b, hs, fuel);
    var e := Execute(d, cfg, en.sys, b, fuel);
    forall id | id in en.sys.finished && id in e.reqs ensures Clean(e.reqs[id], For(en.log, id)) {
      assert id in en.sys.reqs && e.reqs[id] == en.sys.reqs[id].(cache := e.reqs[id].cache);
      CleanAlike(en.sys.reqs[id], e.reqs[id], For(en.log, id));
    }
  }

  // ---------------------------------------------------------------------------------- one step

  lemma {:induction false} IdsCard(ids: seq<Id>, keys: set<Id>)
    requires Distinct(ids) && forall x :: x in ids ==> x in keys
    ensures |ids| <= |keys|
  {
    if ids != [] {
      var n := |ids| - 1;
      assert ids == ids[..n] + [ids[n]] && ids[n] !in ids[..n];
      IdsCard(ids[..n], keys - {ids[n]});
    }
  }

  lemma {:induction false} DeviceStepsMono(m: nat, n: nat, layers: nat)
    requires m <= n
    ensures DeviceSteps(m, layers) <= DeviceSteps(n, layers)
  {
    if m < n {
      DeviceStepsMono(m, n - 1, layers);
    }
  }

  /** With the promise kept and a device that lasts, a step reports no error at all. */
  lemma StepSucceeds(d: Decoder, cfg: Config, en: Engine, hs: seq<Hist>, fuel: nat, most: nat)
    requires EngineInv(d, cfg, en, hs) && Keeps(cfg, en, most) && cfg.chunk > 0 && AllClean(en)
    requires fuel >= DeviceSteps(|en.sys.reqs|, d.layers)
    ensures StepError(d, cfg, en, fuel) == None && AllClean(Step(d, cfg, en, fuel))
  {
    hide EngineInv, Schedule, Execute, X.ExecOk, Mid, ApplyAll, Room, OnePrefill, Bounded, AllClean, Unshared, AllHeld, DeviceSteps, Demand, Queues;
    AdmitRoom(d, cfg, en, hs, most);
    InvQueues(d, cfg, en, hs);
    ScheduleKeeps(d, cfg, en, hs);
    ScheduleClean(cfg, en);
    var (sys, b) := Schedule(cfg, en.sys);
    var en0 := en.(sys := sys);
    if !(b.prefill == [] && b.decode == []) {
      var ids := b.prefill + b.decode;
      ScheduledKeys(d, cfg, en, hs);
      IdsCard(ids, sys.reqs.Keys);
      DeviceStepsMono(|ids|, |en.sys.reqs|, d.layers);
      RoomFacts(sys);
      ExecuteExact(d, cfg, en0, b, hs, fuel);
      ExecuteRoom(d, cfg, en0, b, hs, fuel);
      var hs1 := ExecuteMid(d, cfg, en0, b, hs, fuel);
      var e := Execute(d, cfg, sys, b, fuel);
      assert e.error.None?;
      ExecuteClean(d, cfg, en0, b, hs, fuel);
      ApplyAllClean(d, cfg, en.(sys := sys.(reqs := e.reqs, arena := e.arena)), hs1, ids, e.out);
    }
  }

  lemma RoomFacts(sys: Sys)
    requires Room(sys.reqs, sys.arena, sys.running)
    ensures sys.arena.store.pool.blockSize > 0 && Unshared(AllHeld(sys.arena))
  {
  }

  lemma ScheduledKeys(d: Decoder, cfg: Config, en: Engine, hs: seq<Hist>)
    requires EngineInv(d, cfg, en, hs)
    ensures Schedule(cfg, en.sys).0.reqs.Keys == en.sys.reqs.Keys
  {
    hide X.ExecOk, Lives, Streams, Schedule, Stopped, Fitted;
    var k := ScheduleDecides(cfg, en.sys);
    assert forall x :: x in en.sys.waiting[..k] ==> x in en.sys.waiting;
  }

  // ----------------------------------------------------------------------------- the whole run

  ghost predicate Served(d: Decoder, cfg: Config, r: Request, events: seq<Event>) {
    && PromptInputs(d, r) != []
    && exists stopped :: events == Tokens(r.id, Solo(d, PromptInputs(d, r), r.maxNew, cfg.eos)) + [DoneEvent(r.id, false, stopped)]
  }

  /** From any coherent state in which the promise is kept and everything fits: once there are as many
      iterations as tokens left, nothing is pending and every stream ended with the solo output. */
  lemma {:induction false} IterationsServe(d: Decoder, cfg: Config, en: Engine, hs: seq<Hist>, fuels: seq<nat>, most: nat)
    requires EngineInv(d, cfg, en, hs) && Keeps(cfg, en, most) && PositiveLimits(cfg) && cfg.chunk > 0 && AllClean(en)
    requires AllFit(cfg, en.sys) && |fuels| >= Measure(en.sys)
    requires forall i :: 0 <= i < |fuels| ==> fuels[i] >= DeviceSteps(|en.sys.reqs|, d.layers)
    ensures var en' := Iterations(d, cfg, en, fuels);
      && !HasWork(en'.sys) && Static(en.sys, en'.sys)
      && forall id :: id in en'.sys.reqs ==> en'.sys.reqs[id].id == id && Served(d, cfg, en'.sys.reqs[id], For(en'.log, id))
    decreases |fuels|
  {
    hide EngineInv, Keeps, Schedule, Step, Measure, AllFit, Needed, AllClean, StepError, Static, Served, DeviceSteps;
    if !HasWork(en.sys) {
      StaticRefl(en.sys);
      assert Iterations(d, cfg, en, fuels) == en;
      forall id | id in en.sys.reqs ensures en.sys.reqs[id].id == id && Served(d, cfg, en.sys.reqs[id], For(en.log, id)) {
        AllServed(d, cfg, en, hs, id);
      }
    } else {
      InvMeasure(d, cfg, en, hs);
      EmptyBatchIff(d, cfg, en, hs);
      HeadFits(d, cfg, en, hs);
      var en' := Step(d, cfg, en, fuels[0]);
      StepDecreases(d, cfg, en, hs, fuels[0]);
      StepIsStatic(d, cfg, en, hs, fuels[0]);
      StepSucceeds(d, cfg, en, hs, fuels[0], most);
      var hs' := StepKeeps(d, cfg, en, hs, fuels[0]);
      KeepsOn(d, cfg, en, hs, fuels[0], most);
      AllFitStatic(cfg, en.sys, en'.sys);
      SameCount(en.sys, en'.sys);
      IterationsServe(d, cfg, en', hs', fuels[1..], most);
      StaticTrans(en.sys, en'.sys, Iterations(d, cfg, en', fuels[1..]).sys);
    }
  }

  lemma StaticRefl(sys: Sys)
    ensures Static(sys, sys)
  {
  }

  lemma SameCount(sys: Sys, sys': Sys)
    requires Static(sys, sys')
    ensures |sys'.reqs| == |sys.reqs|
  {
    assert |sys'.reqs| == |sys'.reqs.Keys| && |sys.reqs| == |sys.reqs.Keys|;
  }

  lemma KeepsOn(d: Decoder, cfg: Config, en: Engine, hs: seq<Hist>, fuel: nat, most: nat)
    requires EngineInv(d, cfg, en, hs) && Keeps(cfg, en, most)
    ensures Keeps(cfg, Step(d, cfg, en, fuel), most)
  {
    hide EngineInv, Step, OnePrefill, RoomIn, Bounded, Static;
    StepRoom(d, cfg, en, hs, fuel, most);
    StepIsStatic(d, cfg, en, hs, fuel);
    BoundedStatic(en.sys, Step(d, cfg, en, fuel).sys, most);
  }

  lemma AllServed(d: Decoder, cfg: Config, en: Engine, hs: seq<Hist>, id: Id)
    requires EngineInv(d, cfg, en, hs) && AllClean(en) && !HasWork(en.sys) && id in en.sys.reqs
    ensures en.sys.reqs[id].id == id && Served(d, cfg, en.sys.reqs[id], For(en.log, id))
  {
    hide X.ExecOk, Solo, Tokens, For, StopsAtEnd, Greedy, CacheLength;
    assert id in en.sys.finished;
    var r := en.sys.reqs[id];
    assert DoneOk(d, r) && Closed(cfg, r, For(en.log, id)) && Clean(r, For(en.log, id));
    var stopped :| For(en.log, id) == Tokens(r.id, r.gen) + [DoneEvent(r.id, false, stopped)];
    ClosedIsSolo(d, cfg, r, For(en.log, id));
    assert For(en.log, id)[|For(en.log, id)| - 1] == DoneEvent(r.id, false, stopped);
  }

  // ------------------------------------------------------------------------- from an empty server

  /** Forwards it may take to serve these requests: a token each. */
  ghost function Work(rs: seq<Request>): int {
    if rs == [] then 0 else |rs[0].prompt| + Max(1, rs[0].maxNew) + Work(rs[1..])
  }

  lemma AddMeasure(sys: Sys, r: Request)
    requires Queues(sys) && r.id !in sys.reqs && WaitOk(r)
    ensures Measure(AddRequest(sys, r)) == Measure(sys) + |r.prompt| + Max(1, r.maxNew)
  {
    hide Left;
    var sys' := AddRequest(sys, r);
    assert r.(state := Waiting) == r;
    forall id | id in sys.waiting || id in sys.running ensures At(sys'.reqs, id) == At(sys.reqs, id) {
      assert id in sys.reqs;
    }
    SumSame(sys.reqs, sys'.reqs, sys.waiting);
    SumSame(sys.reqs, sys'.reqs, sys.running);
    SumAppend(sys'.reqs, sys.waiting, [r.id]);
    OneLeft(sys', r);
  }

  lemma OneLeft(sys: Sys, r: Request)
    requires r.id in sys.reqs && sys.reqs[r.id] == r && WaitOk(r)
    ensures Sum(sys.reqs, [r.id]) == |r.prompt| + Max(1, r.maxNew)
  {
    assert [r.id][1..] == [];
  }

  /** Draining stores each submission, untouched, and nothing else. */
  lemma {:induction false} DrainStores(en: Engine)
    requires InboxOk(en)
    ensures var en' := Drain(en);
      && en'.sys.finished == en.sys.finished && |en'.sys.reqs| == |en.sys.reqs| + |en.inbox|
      && (forall id :: id in en.sys.reqs ==> id in en'.sys.reqs && en'.sys.reqs[id] == en.sys.reqs[id])
      && (forall i :: 0 <= i < |en.inbox| ==> en.inbox[i].id in en'.sys.reqs && en'.sys.reqs[en.inbox[i].id] == en.inbox[i])
    decreases |en.inbox|
  {
    hide WaitOk;
    if en.inbox != [] {
      var r := en.inbox[0];
      InboxHead(en);
      WaitingAlready(r);
      var en1 := en.(inbox := en.inbox[1..], emitters := if r.id in en.emitters then en.emitters else en.emitters + [r.id], sys := AddRequest(en.sys, r));
      assert en1.sys.reqs == en.sys.reqs[r.id := r];
      DrainStores(en1);
      forall i | 0 <= i < |en.inbox| ensures en.inbox[i].id in Drain(en1).sys.reqs && Drain(en1).sys.reqs[en.inbox[i].id] == en.inbox[i] {
        if i > 0 {
          assert en1.inbox[i - 1] == en.inbox[i];
        }
      }
    }
  }

  lemma WaitingAlready(r: Request)
    requires WaitOk(r)
    ensures r.(state := Waiting) == r
  {
  }

  /** What draining puts in the queue. */
  lemma {:induction false} DrainedIs(d: Decoder, cfg: Config, en: Engine, hs: seq<Hist>)
    requires EngineInv(d, cfg, en, hs) && InboxOk(en) && AllFit(cfg, en.sys)
    requires forall i :: 0 <= i < |en.inbox| ==> Needed(en.sys, en.inbox[i]) <= Bound(cfg, en.sys)
    ensures var en' := Drain(en); AllFit(cfg, en'.sys) && Measure(en'.sys) == Measure(en.sys) + Work(en.inbox)
    decreases |en.inbox|
  {
    hide EngineInv, Measure, WaitOk, Bound, Needed, AllFit, AddRequest, InboxOk, Queues;
    if en.inbox != [] {
      var r := en.inbox[0];
      InboxHead(en);
      var en1 := en.(inbox := en.inbox[1..], emitters := if r.id in en.emitters then en.emitters else en.emitters + [r.id], sys := AddRequest(en.sys, r));
      DrainOne(d, cfg, en, hs);
      InvQueues(d, cfg, en, hs);
      AddMeasure(en.sys, r);
      AddFits(cfg, en.sys, r);
      DrainedIs(d, cfg, en1, hs);
    }
  }

  lemma InboxHead(en: Engine)
    requires InboxOk(en) && en.inbox != []
    ensures WaitOk(en.inbox[0]) && en.inbox[0].id !in en.sys.reqs
    ensures forall i :: 0 < i < |en.inbox| ==> en.inbox[i].id != en.inbox[0].id
  {
  }

  lemma AddFits(cfg: Config, sys: Sys, r: Request)
    requires AllFit(cfg, sys) && Needed(sys, r) <= Bound(cfg, sys) && r.id !in sys.reqs && WaitOk(r)
    ensures var sys' := AddRequest(sys, r);
      && AllFit(cfg, sys')
      && Bound(cfg, sys') == Bound(cfg, sys) && forall q :: Needed(sys', q) == Needed(sys, q)
  {
    hide CeilDiv;
    assert r.(state := Waiting) == r;
  }

  /** Every request is served. Submit any requests with non-empty prompts to an empty server whose
      limits are positive, whose pool holds each of them outside the reserve, and whose reserve covers
      what all but one of a full batch can grow by. On a device that lasts, after at most one iteration
      per token each stream is exactly the tokens of serving that request alone on a private contiguous
      cache, followed by one closing event without an error. */
  lemma EveryRequestServed(d: Decoder, cfg: Config, numBlocks: nat, blockSize: nat, zero: KV, rs: seq<Request>, fuels: seq<nat>, most: nat)
    requires d.layers > 0 && blockSize > 0 && PositiveLimits(cfg) && cfg.maxPrefills == 1 && cfg.chunk > 0
    requires (cfg.maxBatch - 1) * most <= cfg.reserve
    requires forall i :: 0 <= i < |rs| ==> WaitOk(rs[i]) && Growth(blockSize, rs[i]) <= most
    requires forall i :: 0 <= i < |rs| ==> CeilDiv(|rs[i].prompt| + rs[i].maxNew, blockSize) + cfg.reserve <= numBlocks
    requires forall i, j :: 0 <= i < j < |rs| ==> rs[i].id != rs[j].id
    requires |fuels| >= Work(rs) && forall i :: 0 <= i < |fuels| ==> fuels[i] >= DeviceSteps(|rs|, d.layers)
    ensures var en := Iterations(d, cfg, Drain(Start(d.layers, numBlocks, blockSize, zero).(inbox := rs)), fuels);
      !HasWork(en.sys) && forall i :: 0 <= i < |rs| ==> Served(d, cfg, rs[i], For(en.log, rs[i].id))
  {
    hide EngineInv, Keeps, Drain, Iterations, Measure, Work, DeviceSteps, Served, Growth, WaitOk, AllFit, CeilDiv, Needed, Bound, For, Start, Static, HasWork, InboxOk, AllClean;
    var en1 := Start(d.layers, numBlocks, blockSize, zero).(inbox := rs);
    Loaded(d, cfg, numBlocks, blockSize, zero, rs, most);
    DrainedIs(d, cfg, en1, []);
    DrainStores(en1);
    DrainRoom(d, cfg, en1, [], most);
    DrainKeeps(d, cfg, en1, []);
    var en2 := Drain(en1);
    NoneFinished(en2);
    IterationsServe(d, cfg, en2, [], fuels, most);
    var en := Iterations(d, cfg, en2, fuels);
    forall i | 0 <= i < |rs| ensures Served(d, cfg, rs[i], For(en.log, rs[i].id)) {
      StaticKeys(en2.sys, en.sys);
      ServedAlike(d, cfg, en2.sys, en.sys, rs[i], For(en.log, rs[i].id));
    }
  }

  lemma NoneFinished(en: Engine)
    requires en.sys.finished == []
    ensures AllClean(en)
  {
  }

  lemma StaticKeys(sys: Sys, sys': Sys)
    requires Static(sys, sys')
    ensures forall id :: id in sys.reqs ==> id in sys'.reqs
  {
    assert sys'.reqs.Keys == sys.reqs.Keys;
  }

  /** The state with every request submitted and nothing else done. */
  lemma Loaded(d: Decoder, cfg: Config, numBlocks: nat, blockSize: nat, zero: KV, rs: seq<Request>, most: nat)
    requires d.layers > 0 && blockSize > 0 && cfg.maxBatch > 0 && cfg.maxPrefills == 1
    requires (cfg.maxBatch - 1) * most <= cfg.reserve
    requires forall i :: 0 <= i < |rs| ==> WaitOk(rs[i])
    requires forall i :: 0 <= i < |rs| ==> CeilDiv(|rs[i].prompt| + rs[i].maxNew, blockSize) + cfg.reserve <= numBlocks
    requires forall i, j :: 0 <= i < j < |rs| ==> rs[i].id != rs[j].id
    ensures var en := Start(d.layers, numBlocks, blockSize, zero).(inbox := rs);
      && EngineInv(d, cfg, en, []) && InboxOk(en) && Keeps(cfg, en, most) && AllFit(cfg, en.sys)
      && en.inbox == rs && Measure(en.sys) == 0 && en.sys.finished == [] && |en.sys.reqs| == 0
      && en.sys.arena.store.pool.blockSize == blockSize
      && forall i :: 0 <= i < |rs| ==> Needed(en.sys, rs[i]) <= Bound(cfg, en.sys)
  {
    hide CeilDiv, WaitOk;
    var en0 := Start(d.layers, numBlocks, blockSize, zero);
    StartOk(d, cfg, numBlocks, blockSize, zero);
    StartKeeps(d, cfg, numBlocks, blockSize, zero, most);
    SameSys(d, cfg, en0, en0.(inbox := rs), []);
  }

  lemma StartKeeps(d: Decoder, cfg: Config, numBlocks: nat, blockSize: nat, zero: KV, most: nat)
    requires d.layers > 0 && blockSize > 0 && cfg.maxPrefills == 1 && cfg.maxBatch > 0 && (cfg.maxBatch - 1) * most <= cfg.reserve
    ensures Keeps(cfg, Start(d.layers, numBlocks, blockSize, zero), most)
  {
    var en := Start(d.layers, numBlocks, blockSize, zero);
    assert AllHeld(en.sys.arena) == multiset{};
  }

  lemma ServedAlike(d: Decoder, cfg: Config, sys: Sys, sys': Sys, r: Request, events: seq<Event>)
    requires Static(sys, sys') && r.id in sys.reqs && sys.reqs[r.id] == r
    requires sys'.reqs[r.id].id == r.id && Served(d, cfg, sys'.reqs[r.id], events)
    ensures Served(d, cfg, r, events)
  {
    hide Solo, Tokens;
    assert PromptInputs(d, sys'.reqs[r.id]) == PromptInputs(d, r);
  }
}
