/** No executor growth ever fails when the reserve covers what decoding requests are still owed. */
module NoExhaustion {
  import opened Common
  import opened Tensors
  import opened Decoders
  import opened Paging
  import opened PagingProofs
  import opened Arenas
  import opened ArenaProofs
  import opened Requests
  import opened Scheduling
  import opened Serving
  import opened ForwardProofs
  import X = ExecutionProofs
  import opened LifecycleProofs
  import opened EngineProofs
  import opened EngineRuns
  import opened Shapes
  import opened LivenessProofs
  import opened ExhaustionProofs

  /** With one prefill per step, at most one running request is still prefilling. */
  ghost predicate OnePrefill(sys: Sys) {
    forall i, j :: IsPrefilling(sys, i) && IsPrefilling(sys, j) ==> i == j
  }

  predicate IsPrefilling(sys: Sys, id: Id) {
    id in sys.running && id in sys.reqs && sys.reqs[id].state == Prefilling
  }

  /** Whoever prefills after the step was running and prefilling before it. */
  ghost predicate NoNewPrefill(sys: Sys, sys': Sys) {
    forall id :: IsPrefilling(sys', id) ==> IsPrefilling(sys, id)
  }

  lemma FailOneNoNew(en: Engine, id: Id)
    requires Queues(en.sys) && id in en.sys.running
    ensures NoNewPrefill(en.sys, FailOne(en, id).sys)
  {
    hide Release;
    RemoveFacts(en.sys.running, id);
  }

  lemma ApplyOneNoNew(d: Decoder, cfg: Config, en: Engine, out: Output, id: Id)
    requires Queues(en.sys) && Streams(cfg, en) && id in en.sys.running && id in en.sys.reqs
    requires var r := en.sys.reqs[id];
      && WellFormed(r) && RunOk(d, cfg.eos, r)
      && X.Reported(d, cfg.chunk, r, r, en.sys.arena, out)
    ensures NoNewPrefill(en.sys, ApplyOne(cfg, en, out, id).sys)
  {
    hide ApplyOne, X.Fed, X.Held, Next, Greedy, For, Closed, Release, Streams, HitEos, Stops;
    ApplyOneIs(d, cfg, en, out, id);
    RemoveFacts(en.sys.running, id);
  }

  lemma NoNewTrans(a: Sys, b: Sys, c: Sys)
    requires NoNewPrefill(a, b) && NoNewPrefill(b, c)
    ensures NoNewPrefill(a, c)
  {
  }

  lemma {:induction false} FailAllNoNew(d: Decoder, cfg: Config, en: Engine, hs: seq<Hist>, pending: seq<Id>, out: Output)
    requires Mid(d, cfg, en, hs, pending, out, false)
    ensures NoNewPrefill(en.sys, FailAll(en, pending).sys)
    decreases |pending|
  {
    hide Mid, FailOne, NoNewPrefill;
    if pending == [] {
      NoNewRefl(en.sys);
    } else {
      MidFacts(d, cfg, en, hs, pending, out, false);
      FailOneNoNew(en, pending[0]);
      var hs1 := FailOneMid(d, cfg, en, hs, pending, out);
      FailAllNoNew(d, cfg, FailOne(en, pending[0]), hs1, pending[1..], out);
      NoNewTrans(en.sys, FailOne(en, pending[0]).sys, FailAll(en, pending).sys);
    }
  }

  lemma NoNewRefl(sys: Sys)
    ensures NoNewPrefill(sys, sys)
  {
  }

  lemma MidFacts(d: Decoder, cfg: Config, en: Engine, hs: seq<Hist>, pending: seq<Id>, out: Output, ok: bool)
    requires Mid(d, cfg, en, hs, pending, out, ok) && pending != []
    ensures Queues(en.sys) && Streams(cfg, en) && pending[0] in en.sys.running && pending[0] in en.sys.reqs
    ensures var r := en.sys.reqs[pending[0]];
      && WellFormed(r) && RunOk(d, cfg.eos, r)
      && (ok ==> X.Reported(d, cfg.chunk, r, r, en.sys.arena, out))
  {
    hide X.ExecOk, Streams, Greedy, X.Reported;
    assert pending[0] in pending && pending[0] in en.sys.running;
  }

  lemma {:induction false} ApplyAllNoNew(d: Decoder, cfg: Config, en: Engine, hs: seq<Hist>, pending: seq<Id>, out: Output)
    requires Mid(d, cfg, en, hs, pending, out, true)
    ensures NoNewPrefill(en.sys, ApplyAll(cfg, en, out, pending).sys)
    decreases |pending|
  {
    hide Mid, ApplyOne, NoNewPrefill, Queues, Streams, RunOk, X.Reported, WellFormed;
    if pending == [] {
      NoNewRefl(en.sys);
    } else {
      MidFacts(d, cfg, en, hs, pending, out, true);
      ApplyOneNoNew(d, cfg, en, out, pending[0]);
      var hs1 := ApplyOneMid(d, cfg, en, hs, pending, out);
      ApplyAllNoNew(d, cfg, ApplyOne(cfg, en, out, pending[0]), hs1, pending[1..], out);
      NoNewTrans(en.sys, ApplyOne(cfg, en, out, pending[0]).sys, ApplyAll(cfg, en, out, pending).sys);
    }
  }

  // ------------------------------------------------------------------------------ admission

  /** What generating can add to a request's blocks once its prompt is in. */
  ghost function Growth(bs: nat, r: Request): int
    requires bs > 0
  {
    CeilDiv(|r.prompt| + r.maxNew, bs) - CeilDiv(|r.prompt|, bs)
  }

  ghost predicate Bounded(sys: Sys, most: nat) {
    sys.arena.store.pool.blockSize > 0 && forall id :: id in sys.reqs ==> Growth(sys.arena.store.pool.blockSize, sys.reqs[id]) <= most
  }

  /** A decoding request already holds the blocks of its whole prompt. */
  lemma DecodingHas(d: Decoder, cfg: Config, en: Engine, hs: seq<Hist>, id: Id)
    requires EngineInv(d, cfg, en, hs) && id in en.sys.running && id in en.sys.reqs && en.sys.reqs[id].state == Decoding
    requires en.sys.arena.store.pool.blockSize > 0
    ensures CeilDiv(|en.sys.reqs[id].prompt|, en.sys.arena.store.pool.blockSize) <= Has(en.sys.arena, en.sys.reqs[id])
  {
    hide Inv, Streams, Lives, X.NoStrays, History;
    var a, r := en.sys.arena, en.sys.reqs[id];
    assert r.gen != [] by { DecodingGen(d, cfg, en.sys, id); }
    var c := r.cache.value;
    TenantCapacity(a, hs, c);
    CeilDivAdjunction(|r.prompt|, a.store.pool.blockSize, Has(a, r));
  }

  lemma DecodingGen(d: Decoder, cfg: Config, sys: Sys, id: Id)
    requires Lives(d, cfg, sys) && id in sys.running && id in sys.reqs && sys.reqs[id].state == Decoding
    ensures sys.reqs[id].gen != []
  {
  }

  lemma TenantCapacity(a: Arena, hs: seq<Hist>, c: nat)
    requires Inv(a, hs, NOTHING) && c < |a.caches|
    ensures a.caches[c].table.numTokens <= |a.caches[c].table.blocks| * a.store.pool.blockSize
  {
    InvHeld(a, hs, NOTHING, c);
  }

  /** Admission under the bound: at most one newcomer, everybody else decoding, and the reserve
      covers what they are still owed. */
  lemma AdmitRoom(d: Decoder, cfg: Config, en: Engine, hs: seq<Hist>, most: nat)
    requires EngineInv(d, cfg, en, hs) && cfg.maxPrefills == 1 && OnePrefill(en.sys) && RoomIn(en)
    requires Bounded(en.sys, most) && (cfg.maxBatch > 0 ==> (cfg.maxBatch - 1) * most <= cfg.reserve)
    ensures var sys' := Schedule(cfg, en.sys).0; OnePrefill(sys') && Room(sys'.reqs, sys'.arena, sys'.running)
  {
    hide Schedule, EngineInv, RoomIn, Room, OnePrefill, Stopped, InState, Admitted, Bounded, Take, Fitted, Queues;
    var sys := en.sys;
    InvQueues(d, cfg, en, hs);
    var k := ScheduleDecides(cfg, sys);
    var (sys', b) := Schedule(cfg, sys);
    AdmittedCount(sys, sys', k);
    if k == 0 {
      AdmittedNobody(sys, sys');
      assert RoomIn(en) ==> Room(sys.reqs, sys.arena, sys.running) by { RoomIs(en); }
    } else {
      OneNewcomer(cfg, sys, sys', b, k);
      AdmittedOne(d, cfg, en, hs, sys', most);
    }
  }

  lemma RoomIs(en: Engine)
    ensures RoomIn(en) == Room(en.sys.reqs, en.sys.arena, en.sys.running)
  {
  }

  lemma InvQueues(d: Decoder, cfg: Config, en: Engine, hs: seq<Hist>)
    requires EngineInv(d, cfg, en, hs)
    ensures Queues(en.sys) && Distinct(en.sys.waiting) && Distinct(en.sys.running)
  {
  }

  lemma AdmittedNobody(sys: Sys, sys': Sys)
    requires Queues(sys) && Admitted(sys, sys', 0)
    ensures sys' == sys
  {
    assert sys.waiting[..0] == [] && sys.waiting[0..] == sys.waiting;
    assert sys.running + [] == sys.running;
    assert forall id :: id in sys'.reqs <==> id in sys.reqs;
    assert sys'.reqs == sys.reqs;
  }

  lemma OneNewcomer(cfg: Config, sys: Sys, sys': Sys, b: Batch, k: nat)
    requires Queues(sys) && Decision(cfg, sys, sys', b, k) && k > 0 && |b.prefill| <= cfg.maxPrefills == 1
    ensures k == 1
    ensures forall id :: id in sys.running && id in sys.reqs ==> sys.reqs[id].state != Prefilling
  {
    hide Queues;
    InStateFacts(sys.reqs, sys.running, Prefilling);
    var p := InState(sys.reqs, sys.running, Prefilling);
    assert |sys.waiting[..k]| == k && |Take(p, 1)| == 0;
    assert p == [];
  }

  /** Everybody who runs is past its prompt, so it is owed at most the bound. */
  lemma OwedAtMost(d: Decoder, cfg: Config, en: Engine, hs: seq<Hist>, most: nat, j: Id)
    requires EngineInv(d, cfg, en, hs) && Bounded(en.sys, most) && j in en.sys.running
    requires j in en.sys.reqs ==> en.sys.reqs[j].state != Prefilling
    ensures j in en.sys.reqs && Owed(en.sys.arena, At(en.sys.reqs, j)) <= most
  {
    hide Inv, Streams, X.ExecOk, CeilDiv, Greedy, CacheLength, X.NoStrays, Has;
    var sys := en.sys;
    assert j in sys.reqs;
    assert RunOk(d, cfg.eos, sys.reqs[j]);
    DecodingHas(d, cfg, en, hs, j);
    assert Growth(sys.arena.store.pool.blockSize, sys.reqs[j]) <= most;
  }

  lemma AdmittedOne(d: Decoder, cfg: Config, en: Engine, hs: seq<Hist>, sys': Sys, most: nat)
    requires EngineInv(d, cfg, en, hs) && RoomIn(en) && Bounded(en.sys, most)
    requires Admitted(en.sys, sys', 1) && |sys'.running| <= cfg.maxBatch && Fitted(cfg, en.sys, 1)
    requires forall id :: id in en.sys.running && id in en.sys.reqs ==> en.sys.reqs[id].state != Prefilling
    requires (cfg.maxBatch - 1) * most <= cfg.reserve
    ensures OnePrefill(sys') && Room(sys'.reqs, sys'.arena, sys'.running)
  {
    hide EngineInv, CeilDiv, Owed, Promised, Growth, Bounded;
    var sys := en.sys;
    var id := sys.waiting[0];
    Newcomer(d, cfg, en, hs, sys');
    forall j | j in sys.running
      ensures j in sys.reqs && At(sys'.reqs, j) == At(sys.reqs, j) && Owed(sys.arena, At(sys.reqs, j)) <= most
    {
      OwedAtMost(d, cfg, en, hs, most, j);
    }
    PromisedAtMost(sys.reqs, sys.arena, sys.running, most);
    MulLe(|sys.running|, cfg.maxBatch - 1, most);
    PromisedSame(sys.reqs, sys.arena, sys'.reqs, sys.arena, sys.running);
    PromisedAppend(sys'.reqs, sys.arena, sys.running, id);
  }

  /** The newcomer holds nothing and is promised what admission checked. */
  lemma Newcomer(d: Decoder, cfg: Config, en: Engine, hs: seq<Hist>, sys': Sys)
    requires EngineInv(d, cfg, en, hs) && en.sys.arena.store.pool.blockSize > 0
    requires Admitted(en.sys, sys', 1) && Fitted(cfg, en.sys, 1)
    ensures var id := en.sys.waiting[0];
      && sys'.running == en.sys.running + [id] && id !in en.sys.running && id in sys'.reqs
      && sys'.arena == en.sys.arena && sys'.reqs[id].state == Prefilling
      && 0 < Owed(sys'.arena, At(sys'.reqs, id)) <= Available(cfg, en.sys)
  {
    hide EngineInv, CeilDiv, Owed, WaitOk;
    var sys := en.sys;
    var id := sys.waiting[0];
    HeadIsWaiting(d, cfg, en, hs);
    assert sys.waiting[..1] == [id];
    assert Needed(sys, At(sys.reqs, sys.waiting[0])) <= Available(cfg, sys);
    NothingClaimed(sys, sys'.reqs[id], sys.reqs[id]);
  }

  lemma HeadIsWaiting(d: Decoder, cfg: Config, en: Engine, hs: seq<Hist>)
    requires EngineInv(d, cfg, en, hs) && en.sys.waiting != []
    ensures var id := en.sys.waiting[0];
      id in en.sys.waiting && id in en.sys.reqs && id !in en.sys.running && WaitOk(en.sys.reqs[id])
  {
    hide Streams, X.ExecOk, CacheLength, RunOk, DoneOk;
    assert en.sys.waiting[0] in en.sys.waiting;
  }

  lemma NothingClaimed(sys: Sys, r': Request, r: Request)
    requires WaitOk(r) && r' == r.(state := Prefilling) && sys.arena.store.pool.blockSize > 0
    ensures 0 < Owed(sys.arena, r') == Needed(sys, r)
  {
    hide CeilDiv;
    CeilDivAdjunction(|r.prompt| + r.maxNew, sys.arena.store.pool.blockSize, 0);
  }

  // ---------------------------------------------------------------------------------- steps

  ghost predicate Keeps(cfg: Config, en: Engine, most: nat) {
    cfg.maxPrefills == 1 && OnePrefill(en.sys) && RoomIn(en) && Bounded(en.sys, most)
    && (cfg.maxBatch > 0 ==> (cfg.maxBatch - 1) * most <= cfg.reserve)
  }

  lemma StepRoom(d: Decoder, cfg: Config, en: Engine, hs: seq<Hist>, fuel: nat, most: nat)
    requires EngineInv(d, cfg, en, hs) && Keeps(cfg, en, most)
    ensures StepError(d, cfg, en, fuel) != Some(OutOfBlocks)
    ensures OnePrefill(Step(d, cfg, en, fuel).sys) && RoomIn(Step(d, cfg, en, fuel))
  {
    hide EngineInv, Schedule, Execute, X.ExecOk, Mid, FailAll, ApplyAll, Room, OnePrefill, Bounded;
    AdmitRoom(d, cfg, en, hs, most);
    ScheduleKeeps(d, cfg, en, hs);
    var (sys, b) := Schedule(cfg, en.sys);
    var en0 := en.(sys := sys);
    if !(b.prefill == [] && b.decode == []) {
      var ids := b.prefill + b.decode;
      ExecuteRoom(d, cfg, en0, b, hs, fuel);
      var hs1 := ExecuteMid(d, cfg, en0, b, hs, fuel);
      var e := Execute(d, cfg, sys, b, fuel);
      var en1 := en.(sys := sys.(reqs := e.reqs, arena := e.arena));
      ExecuteStates(d, cfg, en0, b, hs, fuel);
      if e.error.Some? {
        FailAllRoom(d, cfg, en1, hs1, ids, e.out);
        FailAllNoNew(d, cfg, en1, hs1, ids, e.out);
      } else {
        ApplyAllRoom(d, cfg, en1, hs1, ids, e.out);
        ApplyAllNoNew(d, cfg, en1, hs1, ids, e.out);
      }
      OnePrefillKept(en1.sys, Step(d, cfg, en, fuel).sys);
    }
  }

  lemma OnePrefillKept(sys: Sys, sys': Sys)
    requires OnePrefill(sys) && NoNewPrefill(sys, sys')
    ensures OnePrefill(sys')
  {
  }

  lemma ExecuteStates(d: Decoder, cfg: Config, en: Engine, b: Batch, hs: seq<Hist>, fuel: nat)
    requires EngineInv(d, cfg, en, hs) && Distinct(b.prefill + b.decode) && OnePrefill(en.sys)
    requires forall id :: id in b.prefill + b.decode ==>
      && id in en.sys.running && id in en.sys.reqs
      && en.sys.reqs[id].state == if id in b.prefill then Prefilling else Decoding
    ensures var e := Execute(d, cfg, en.sys, b, fuel); OnePrefill(en.sys.(reqs := e.reqs, arena := e.arena))
  {
    hide Execute, X.ExecOk, X.Ready, X.AllReported, Streams, X.Held;
    forall id | id in b.prefill + b.decode
      ensures en.sys.reqs[id].id == id && X.Ready(d, en.sys.reqs[id], en.sys.arena)
    {
      ReadyFrom(d, cfg, en.sys.reqs[id], en.sys.arena);
    }
    var hs1 := X.BatchCorrect(d, cfg, en.sys, b, hs, fuel);
    var e := Execute(d, cfg, en.sys, b, fuel);
    assert forall id :: id in en.sys.reqs ==> e.reqs[id] == en.sys.reqs[id].(cache := e.reqs[id].cache);
    var sys1 := en.sys.(reqs := e.reqs, arena := e.arena);
    forall i | IsPrefilling(sys1, i) ensures IsPrefilling(en.sys, i) {
      assert i in en.sys.reqs by { InvQueues(d, cfg, en, hs); }
    }
  }

  lemma BoundedStatic(sys: Sys, sys': Sys, most: nat)
    requires Bounded(sys, most) && Static(sys, sys')
    ensures Bounded(sys', most)
  {
  }

  /** Draining adds waiting requests only. */
  lemma {:induction false} DrainRoom(d: Decoder, cfg: Config, en: Engine, hs: seq<Hist>, most: nat)
    requires EngineInv(d, cfg, en, hs) && InboxOk(en) && Keeps(cfg, en, most)
    requires forall i :: 0 <= i < |en.inbox| ==> Growth(en.sys.arena.store.pool.blockSize, en.inbox[i]) <= most
    ensures Keeps(cfg, Drain(en), most)
    ensures Drain(en).sys.arena == en.sys.arena && Drain(en).inbox == []
    decreases |en.inbox|
  {
    hide EngineInv, Growth, Unshared, AllHeld, CeilDiv, WaitOk;
    if en.inbox != [] {
      var r := en.inbox[0];
      var en1 := en.(inbox := en.inbox[1..], emitters := if r.id in en.emitters then en.emitters else en.emitters + [r.id], sys := AddRequest(en.sys, r));
      DrainOne(d, cfg, en, hs);
      AddKeeps(d, cfg, en, hs, en1, most);
      DrainRoom(d, cfg, en1, hs, most);
    }
  }

  lemma AddKeeps(d: Decoder, cfg: Config, en: Engine, hs: seq<Hist>, en1: Engine, most: nat)
    requires EngineInv(d, cfg, en, hs) && InboxOk(en) && Keeps(cfg, en, most) && en.inbox != []
    requires Growth(en.sys.arena.store.pool.blockSize, en.inbox[0]) <= most
    requires en1.sys == AddRequest(en.sys, en.inbox[0])
    ensures Keeps(cfg, en1, most)
  {
    hide Unshared, AllHeld, CeilDiv, X.ExecOk, Streams, Lives;
    var sys, r := en.sys, en.inbox[0];
    forall id | id in sys.running ensures At(en1.sys.reqs, id) == At(sys.reqs, id) {
      assert id in sys.reqs && id != r.id;
    }
    PromisedSame(sys.reqs, sys.arena, en1.sys.reqs, sys.arena, sys.running);
    forall i | IsPrefilling(en1.sys, i) ensures IsPrefilling(sys, i) {
      assert i in sys.reqs && i != r.id;
    }
  }

  // ----------------------------------------------------------------------------------- runs

  ghost predicate Modest(cfg: Config, bs: nat, most: nat, actions: seq<Action>)
    requires bs > 0
  {
    forall i :: 0 <= i < |actions| && actions[i].Submit? ==> Growth(bs, actions[i].r) <= most
  }

  /** In no iteration of the run does the executor run out of blocks. */
  ghost predicate NeverExhausted(d: Decoder, cfg: Config, en: Engine, actions: seq<Action>)
    decreases |actions|
  {
    actions == [] ||
    (&& (en.alive && actions[0].Iterate? ==> StepError(d, cfg, en, actions[0].fuel) != Some(OutOfBlocks))
     && NeverExhausted(d, cfg, Act(d, cfg, en, actions[0]), actions[1..]))
  }

  ghost predicate Steady(d: Decoder, cfg: Config, en: Engine, hs: seq<Hist>, bs: nat, most: nat) {
    && RunInv(d, cfg, en, hs)
    && (en.alive ==>
          && en.sys.arena.store.pool.blockSize == bs > 0 && Keeps(cfg, en, most)
          && forall i :: 0 <= i < |en.inbox| ==> Growth(bs, en.inbox[i]) <= most)
  }

  lemma ActSteady(d: Decoder, cfg: Config, en: Engine, hs: seq<Hist>, action: Action, bs: nat, most: nat) returns (hs': seq<Hist>)
    requires bs > 0 && Steady(d, cfg, en, hs, bs, most)
    requires action.Submit? ==> WaitOk(action.r) && !Known(en, action.r.id) && Growth(bs, action.r) <= most
    ensures Steady(d, cfg, Act(d, cfg, en, action), hs', bs, most)
    ensures en.alive && action.Iterate? ==> StepError(d, cfg, en, action.fuel) != Some(OutOfBlocks)
  {
    hide EngineInv, Step, Drain, WaitOk, Settled, Known, InboxOk, Growth, OnePrefill, Bounded, StepError, Room;
    hs' := ActKeeps(d, cfg, en, hs, action);
    if en.alive {
      match action
      case Submit(r) =>
        assert (en.inbox + [r])[..|en.inbox|] == en.inbox;
      case DrainInbox => DrainRoom(d, cfg, en, hs, most);
      case Iterate(fuel) =>
        StepRoom(d, cfg, en, hs, fuel, most);
        if HasWork(en.sys) {
          var en' := Step(d, cfg, en, fuel);
          StepStatic(d, cfg, en, hs, fuel);
          StepKeepsInbox(d, cfg, en, hs, fuel);
          BoundedStatic(en.sys, en'.sys, most);
        }
      case Exit =>
    }
  }

  lemma StepStatic(d: Decoder, cfg: Config, en: Engine, hs: seq<Hist>, fuel: nat)
    requires EngineInv(d, cfg, en, hs)
    ensures Static(en.sys, Step(d, cfg, en, fuel).sys)
  {
    StepIsStatic(d, cfg, en, hs, fuel);
  }

  lemma {:induction false} RunSteady(d: Decoder, cfg: Config, en: Engine, hs: seq<Hist>, actions: seq<Action>, bs: nat, most: nat)
    requires bs > 0 && Steady(d, cfg, en, hs, bs, most) && EngineRuns.Permitted(d, cfg, en, actions) && Modest(cfg, bs, most, actions)
    ensures NeverExhausted(d, cfg, en, actions)
    decreases |actions|
  {
    hide Steady, Act, WaitOk, Known, StepError, Growth;
    if actions != [] {
      var hs1 := ActSteady(d, cfg, en, hs, actions[0], bs, most);
      RunSteady(d, cfg, Act(d, cfg, en, actions[0]), hs1, actions[1..], bs, most);
    }
  }

  /** One prefill per step, no sharing, and a reserve that covers the growth of all but one running
      request: then over every run from an empty server, whatever arrives and whatever faults
      strike, no growth of any cache ever fails. */
  lemma NoGrowthEverFails(d: Decoder, cfg: Config, numBlocks: nat, blockSize: nat, zero: KV, actions: seq<Action>, most: nat)
    requires d.layers > 0 && blockSize > 0 && cfg.maxPrefills == 1
    requires cfg.maxBatch > 0 ==> (cfg.maxBatch - 1) * most <= cfg.reserve
    requires Modest(cfg, blockSize, most, actions)
    requires EngineRuns.Permitted(d, cfg, Start(d.layers, numBlocks, blockSize, zero), actions)
    ensures NeverExhausted(d, cfg, Start(d.layers, numBlocks, blockSize, zero), actions)
  {
    var en := Start(d.layers, numBlocks, blockSize, zero);
    StartOk(d, cfg, numBlocks, blockSize, zero);
    assert AllHeld(en.sys.arena) == multiset{};
    assert Steady(d, cfg, en, [], blockSize, most);
    RunSteady(d, cfg, en, [], actions, blockSize, most);
  }
}
