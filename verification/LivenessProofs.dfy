/** Serving makes progress: when a batch can be empty, and why every finite workload drains. */
module LivenessProofs {
  import opened Common
  import opened Tensors
  import opened Decoders
  import opened Paging
  import opened Arenas
  import opened ArenaProofs
  import opened ArenaRuns
  import opened Requests
  import opened Scheduling
  import opened Serving
  import opened ForwardProofs
  import opened ExecutionProofs
  import opened LifecycleProofs
  import opened EngineProofs
  import opened EngineRuns
  import opened Shapes
  import opened ArrivalOrder
  import P = Pools

  // ------------------------------------------------------------------------------- deadlock

  ghost predicate PositiveLimits(cfg: Config) {
    cfg.maxBatch > 0 && cfg.maxPrefills > 0
  }

  /** The blocks a newcomer may use when nothing else is there. */
  ghost function Bound(cfg: Config, sys: Sys): nat {
    Max(0, |sys.arena.store.pool.refcount| - cfg.reserve)
  }

  /** With nothing running, every block is free. */
  lemma IdlePool(d: Decoder, cfg: Config, en: Engine, hs: seq<Hist>)
    requires EngineInv(d, cfg, en, hs) && en.sys.running == []
    ensures NumFree(en.sys) == |en.sys.arena.store.pool.refcount|
  {
    hide Inv, Streams, Lives, Queues;
    AllReleased(en.sys.arena, hs, NOTHING);
  }

  lemma SomeInState(reqs: map<Id, Request>, ids: seq<Id>, id: Id, state: State)
    requires id in ids && At(reqs, id).state == state
    ensures InState(reqs, ids, state) != []
  {
    InStateFacts(reqs, ids, state);
    assert id in InState(reqs, ids, state);
  }

  /** With work pending and positive limits, a step schedules nothing exactly when nothing is running
      and the request at the head of the queue needs more blocks than the pool has outside the
      reserve; such a request blocks the queue for good. */
  lemma EmptyBatchIff(d: Decoder, cfg: Config, en: Engine, hs: seq<Hist>)
    requires EngineInv(d, cfg, en, hs) && HasWork(en.sys) && PositiveLimits(cfg)
    ensures var (_, b) := Schedule(cfg, en.sys);
      (b.prefill == [] && b.decode == []) <==>
        (en.sys.running == [] && Needed(en.sys, At(en.sys.reqs, en.sys.waiting[0])) > Bound(cfg, en.sys))
  {
    hide EngineInv, Schedule, Needed;
    if en.sys.running == [] {
      IdlePool(d, cfg, en, hs);
      IdleBatch(cfg, en.sys);
    } else {
      BusyBatch(d, cfg, en, hs);
    }
  }

  lemma IdleBatch(cfg: Config, sys: Sys)
    requires sys.running == [] && sys.waiting != [] && PositiveLimits(cfg)
    ensures var (_, b) := Schedule(cfg, sys);
      (b.prefill == [] && b.decode == []) <==> Needed(sys, At(sys.reqs, sys.waiting[0])) > Available(cfg, sys)
  {
    hide Needed, Available;
    var id := sys.waiting[0];
    if Needed(sys, At(sys.reqs, id)) <= Available(cfg, sys) {
      var sys1 := sys.(
        waiting := sys.waiting[1..],
        reqs := sys.reqs[id := At(sys.reqs, id).(state := Prefilling)],
        running := sys.running + [id]);
      AdmitGrows(cfg, sys1, Batch([] + [id], []));
    }
  }

  lemma BusyBatch(d: Decoder, cfg: Config, en: Engine, hs: seq<Hist>)
    requires EngineInv(d, cfg, en, hs) && en.sys.running != [] && PositiveLimits(cfg)
    ensures var (_, b) := Schedule(cfg, en.sys); b.prefill != [] || b.decode != []
  {
    hide Schedule, ExecOk, Streams, Fitted, InState, CacheLength, Admitted, Stopped, Greedy;
    var sys := en.sys;
    var k := ScheduleDecides(cfg, sys);
    var id := sys.running[0];
    assert id in sys.running && id in sys.reqs && RunOk(d, cfg.eos, sys.reqs[id]);
    SomeInState(sys.reqs, sys.running, id, sys.reqs[id].state);
  }

  // ---------------------------------------------------------------------------- the measure

  /** Prompt tokens still to prefill plus output tokens still allowed. */
  ghost function Left(r: Request): int {
    |r.prompt| - r.offset + Max(1, r.maxNew) - |r.gen|
  }

  ghost function Sum(reqs: map<Id, Request>, ids: seq<Id>): int {
    if ids == [] then 0 else Left(At(reqs, ids[0])) + Sum(reqs, ids[1..])
  }

  ghost function Measure(sys: Sys): int {
    Sum(sys.reqs, sys.waiting) + Sum(sys.reqs, sys.running)
  }

  lemma {:induction false} SumSame(reqs: map<Id, Request>, reqs': map<Id, Request>, ids: seq<Id>)
    requires forall id :: id in ids ==> Left(At(reqs, id)) == Left(At(reqs', id))
    ensures Sum(reqs, ids) == Sum(reqs', ids)
  {
    if ids != [] {
      assert ids[0] in ids;
      assert forall id :: id in ids[1..] ==> id in ids;
      SumSame(reqs, reqs', ids[1..]);
    }
  }

  lemma {:induction false} SumAppend(reqs: map<Id, Request>, a: seq<Id>, b: seq<Id>)
    ensures Sum(reqs, a + b) == Sum(reqs, a) + Sum(reqs, b)
  {
    if a == [] {
      assert a + b == b;
    } else {
      assert (a + b)[1..] == a[1..] + b;
      SumAppend(reqs, a[1..], b);
    }
  }

  lemma {:induction false} SumRemove(reqs: map<Id, Request>, ids: seq<Id>, id: Id)
    requires id in ids
    ensures Sum(reqs, Remove(ids, id)) == Sum(reqs, ids) - Left(At(reqs, id))
  {
    if ids[0] != id {
      assert ids == [ids[0]] + ids[1..];
      SumRemove(reqs, ids[1..], id);
    }
  }

  lemma {:induction false} SumSet(reqs: map<Id, Request>, ids: seq<Id>, r: Request)
    requires Distinct(ids)
    ensures Sum(reqs[r.id := r], ids) == Sum(reqs, ids) + if r.id in ids then Left(r) - Left(At(reqs, r.id)) else 0
  {
    if ids != [] {
      assert Distinct(ids[1..]) && ids == [ids[0]] + ids[1..] && ids[0] !in ids[1..];
      SumSet(reqs, ids[1..], r);
    }
  }

  lemma {:induction false} SumPositive(reqs: map<Id, Request>, ids: seq<Id>)
    requires forall id :: id in ids ==> Left(At(reqs, id)) >= 1
    ensures Sum(reqs, ids) >= |ids|
  {
    if ids != [] {
      assert ids[0] in ids;
      SumPositive(reqs, ids[1..]);
    }
  }

  lemma RunLeft(d: Decoder, eos: Option<Token>, r: Request)
    requires RunOk(d, eos, r)
    ensures Left(r) >= 1
  {
    if r.state == Decoding {
      assert r.gen[..|r.gen|] == r.gen;
      assert !Stops(r.gen[..|r.gen|], r.maxNew, eos);
    }
  }

  lemma WaitLeft(r: Request)
    requires WaitOk(r)
    ensures Left(r) >= 1
  {
  }

  lemma MeasureCounts(d: Decoder, cfg: Config, sys: Sys)
    requires Queues(sys) && Lives(d, cfg, sys)
    ensures Measure(sys) >= |sys.waiting| + |sys.running|
  {
    forall id | id in sys.waiting ensures Left(At(sys.reqs, id)) >= 1 {
      WaitLeft(sys.reqs[id]);
    }
    forall id | id in sys.running ensures Left(At(sys.reqs, id)) >= 1 {
      RunLeft(d, cfg.eos, sys.reqs[id]);
    }
    SumPositive(sys.reqs, sys.waiting);
    SumPositive(sys.reqs, sys.running);
  }

  /** Changing a running request in place moves the measure by what it moves. */
  lemma SetMeasure(en: Engine, r: Request)
    requires Queues(en.sys) && r.id in en.sys.running
    ensures Measure(Set(en, r).sys) == Measure(en.sys) + Left(r) - Left(At(en.sys.reqs, r.id))
  {
    SumSet(en.sys.reqs, en.sys.waiting, r);
    SumSet(en.sys.reqs, en.sys.running, r);
  }

  lemma FinishMeasure(sys: Sys, id: Id)
    requires Queues(sys) && id in sys.running
    ensures Measure(Finish(sys, id)) == Measure(sys) - Left(At(sys.reqs, id))
  {
    hide Release;
    FinishQueues(sys, id);
    RemoveFacts(sys.running, id);
    SumRemove(sys.reqs, sys.running, id);
    var sys' := Finish(sys, id);
    SumSame(sys.reqs, sys'.reqs, sys'.waiting);
    SumSame(sys.reqs, sys'.reqs, sys'.running);
  }

  lemma FailOneDecreases(d: Decoder, cfg: Config, en: Engine, hs: seq<Hist>, pending: seq<Id>, out: Output)
    requires Mid(d, cfg, en, hs, pending, out, false) && pending != []
    ensures Measure(FailOne(en, pending[0]).sys) < Measure(en.sys)
  {
    hide ExecOk, Streams, Closed, Measure, Release, Remove, Greedy;
    var id := pending[0];
    assert id in en.sys.running && id in en.sys.reqs;
    RunLeft(d, cfg.eos, en.sys.reqs[id]);
    FinishMeasure(en.sys, id);
  }

  lemma AfterLeft(d: Decoder, cfg: Config, a: Arena, out: Output, r: Request)
    requires cfg.chunk > 0 && RunOk(d, cfg.eos, r) && Reported(d, cfg.chunk, r, r, a, out)
    ensures Left(After(out, r)) < Left(r)
  {
    hide Fed, Next, Greedy, Held, Stops;
    if r.state == Prefilling {
      assert ChunkLength(cfg.chunk, r) > 0;
    }
  }

  lemma ApplyOneDecreases(d: Decoder, cfg: Config, en: Engine, hs: seq<Hist>, pending: seq<Id>, out: Output)
    requires Mid(d, cfg, en, hs, pending, out, true) && pending != [] && cfg.chunk > 0
    ensures Measure(ApplyOne(cfg, en, out, pending[0]).sys) < Measure(en.sys)
  {
    hide ExecOk, Streams, Closed, Measure, ApplyOne, Finish, For, Tokens, Greedy, Reported, After, Fed, Stops, HitEos, Left;
    var id := pending[0];
    assert id in en.sys.running && id in en.sys.reqs;
    var r := en.sys.reqs[id];
    assert r.id == id;
    var r' := After(out, r);
    ApplyOneIs(d, cfg, en, out, id);
    AfterLeft(d, cfg, en.sys.arena, out, r);
    SetMeasure(en, r');
    if id in out.tokens && ShouldStop(r', cfg.eos) {
      SetQueues(en, r');
      FinishMeasure(Set(en, r').sys, id);
      AfterNonNegative(d, cfg, en.sys.arena, out, r);
    }
  }

  lemma AfterNonNegative(d: Decoder, cfg: Config, a: Arena, out: Output, r: Request)
    requires RunOk(d, cfg.eos, r) && Reported(d, cfg.chunk, r, r, a, out)
    ensures Left(After(out, r)) >= 0
  {
    hide Fed, Next, Greedy, Held;
    if r.state == Decoding {
      assert r.gen[..|r.gen|] == r.gen;
      assert !Stops(r.gen[..|r.gen|], r.maxNew, cfg.eos);
    }
  }

  lemma {:induction false} FailAllDecreases(d: Decoder, cfg: Config, en: Engine, hs: seq<Hist>, pending: seq<Id>, out: Output)
    requires Mid(d, cfg, en, hs, pending, out, false)
    ensures Measure(FailAll(en, pending).sys) <= Measure(en.sys) - |pending|
    ensures Static(en.sys, FailAll(en, pending).sys)
    decreases |pending|
  {
    hide Mid, FailOne, Measure;
    if pending != [] {
      PendingIn(d, cfg, en, hs, pending, out, false);
      FailOneDecreases(d, cfg, en, hs, pending, out);
      FailOneStatic(en, pending[0]);
      var hs' := FailOneMid(d, cfg, en, hs, pending, out);
      FailAllDecreases(d, cfg, FailOne(en, pending[0]), hs', pending[1..], out);
    }
  }

  lemma PendingIn(d: Decoder, cfg: Config, en: Engine, hs: seq<Hist>, pending: seq<Id>, out: Output, ok: bool)
    requires Mid(d, cfg, en, hs, pending, out, ok) && pending != []
    ensures pending[0] in en.sys.reqs
  {
    hide ExecOk, Lives, Streams, Reported;
    assert pending[0] in pending;
  }

  lemma {:induction false} ApplyAllDecreases(d: Decoder, cfg: Config, en: Engine, hs: seq<Hist>, pending: seq<Id>, out: Output)
    requires Mid(d, cfg, en, hs, pending, out, true) && cfg.chunk > 0
    ensures Measure(ApplyAll(cfg, en, out, pending).sys) <= Measure(en.sys) - |pending|
    decreases |pending|
  {
    hide Mid, ApplyOne, Measure;
    if pending != [] {
      PendingIn(d, cfg, en, hs, pending, out, true);
      ApplyOneDecreases(d, cfg, en, hs, pending, out);
      var hs' := ApplyOneMid(d, cfg, en, hs, pending, out);
      ApplyAllDecreases(d, cfg, ApplyOne(cfg, en, out, pending[0]), hs', pending[1..], out);
    }
  }

  lemma ScheduleMeasure(cfg: Config, sys: Sys, sys': Sys, b: Batch, k: nat)
    requires Queues(sys) && Decision(cfg, sys, sys', b, k)
    ensures Measure(sys') == Measure(sys) && Static(sys, sys')
  {
    hide InState, Take, Sum, Left;
    SplitDistinct(sys.waiting, k);
    assert sys.waiting == sys.waiting[..k] + sys.waiting[k..];
    SumAppend(sys.reqs, sys.waiting[..k], sys.waiting[k..]);
    SumAppend(sys.reqs, sys.running, sys.waiting[..k]);
    AdmittedSame(sys, sys', k);
    SumSame(sys.reqs, sys'.reqs, sys'.waiting);
    SumSame(sys.reqs, sys'.reqs, sys'.running);
  }

  lemma AdmittedSame(sys: Sys, sys': Sys, k: nat)
    requires Queues(sys) && Admitted(sys, sys', k)
    ensures Static(sys, sys')
    ensures forall id :: Left(At(sys.reqs, id)) == Left(At(sys'.reqs, id))
  {
    SplitDistinct(sys.waiting, k);
    forall id ensures Left(At(sys.reqs, id)) == Left(At(sys'.reqs, id)) {
      if id in sys.waiting[..k] { assert id in sys.reqs; }
    }
  }

  lemma ExecuteMeasure(d: Decoder, cfg: Config, en: Engine, b: Batch, hs: seq<Hist>, fuel: nat)
    requires EngineInv(d, cfg, en, hs) && Distinct(b.prefill + b.decode)
    requires forall id :: id in b.prefill + b.decode ==>
      && id in en.sys.running && id in en.sys.reqs
      && en.sys.reqs[id].state == if id in b.prefill then Prefilling else Decoding
    ensures var e := Execute(d, cfg, en.sys, b, fuel);
      var sys' := en.sys.(reqs := e.reqs, arena := e.arena);
      Measure(sys') == Measure(en.sys) && Static(en.sys, sys')
  {
    hide Execute, ExecOk, Ready, AllReported, Streams, Held;
    forall id | id in b.prefill + b.decode
      ensures en.sys.reqs[id].id == id && Ready(d, en.sys.reqs[id], en.sys.arena)
    {
      ReadyFrom(d, cfg, en.sys.reqs[id], en.sys.arena);
    }
    var hs' := BatchCorrect(d, cfg, en.sys, b, hs, fuel);
    var e := Execute(d, cfg, en.sys, b, fuel);
    ExecuteShape(d, cfg, en.sys, b, fuel);
    assert forall id :: id in en.sys.reqs ==> e.reqs[id] == en.sys.reqs[id].(cache := e.reqs[id].cache);
    SumSame(en.sys.reqs, e.reqs, en.sys.waiting);
    SumSame(en.sys.reqs, e.reqs, en.sys.running);
  }

  lemma StaticTrans(a: Sys, b: Sys, c: Sys)
    requires Static(a, b) && Static(b, c)
    ensures Static(a, c)
  {
  }

  /** Every step with a non-empty batch, faulty or not, leaves strictly less to do. */
  lemma StepDecreases(d: Decoder, cfg: Config, en: Engine, hs: seq<Hist>, fuel: nat)
    requires EngineInv(d, cfg, en, hs) && cfg.chunk > 0
    ensures var (_, b) := Schedule(cfg, en.sys);
      Measure(Step(d, cfg, en, fuel).sys) <= Measure(en.sys) - |b.prefill| - |b.decode|
  {
    hide Schedule, Execute, ExecOk, Mid, FailAll, ApplyAll, Measure, Static, Decision, Stopped, Fitted, Streams, Lives, Queues, CacheLength;
    assert Queues(en.sys) && Distinct(en.sys.waiting) by { QueuesDistinct(en.sys); }
    var k := ScheduleDecides(cfg, en.sys);
    ScheduleKeeps(d, cfg, en, hs);
    var (sys, b) := Schedule(cfg, en.sys);
    ScheduleMeasure(cfg, en.sys, sys, b, k);
    if !(b.prefill == [] && b.decode == []) {
      var ids := b.prefill + b.decode;
      var en0 := en.(sys := sys);
      ExecuteMeasure(d, cfg, en0, b, hs, fuel);
      var hs' := ExecuteMid(d, cfg, en0, b, hs, fuel);
      var e := Execute(d, cfg, sys, b, fuel);
      var en1 := en.(sys := sys.(reqs := e.reqs, arena := e.arena));
      if e.error.Some? {
        FailAllDecreases(d, cfg, en1, hs', ids, e.out);
      } else {
        ApplyAllDecreases(d, cfg, en1, hs', ids, e.out);
      }
    }
  }

  /** The pool's size and the requests' prompts and limits are untouched whatever the chunk size. */
  lemma StepIsStatic(d: Decoder, cfg: Config, en: Engine, hs: seq<Hist>, fuel: nat)
    requires EngineInv(d, cfg, en, hs)
    ensures Static(en.sys, Step(d, cfg, en, fuel).sys)
  {
    hide Schedule, Execute, ExecOk, Mid, FailAll, ApplyAll, Measure, Static, Decision, Stopped, Fitted, Streams, Lives, Queues, CacheLength;
    assert Queues(en.sys) && Distinct(en.sys.waiting) by { QueuesDistinct(en.sys); }
    var k := ScheduleDecides(cfg, en.sys);
    ScheduleKeeps(d, cfg, en, hs);
    var (sys, b) := Schedule(cfg, en.sys);
    ScheduleMeasure(cfg, en.sys, sys, b, k);
    if !(b.prefill == [] && b.decode == []) {
      var ids := b.prefill + b.decode;
      var en0 := en.(sys := sys);
      ExecuteMeasure(d, cfg, en0, b, hs, fuel);
      var hs' := ExecuteMid(d, cfg, en0, b, hs, fuel);
      var e := Execute(d, cfg, sys, b, fuel);
      var en1 := en.(sys := sys.(reqs := e.reqs, arena := e.arena));
      StaticTrans(en.sys, sys, en1.sys);
      if e.error.Some? {
        FailAllDecreases(d, cfg, en1, hs', ids, e.out);
      } else {
        ApplyAllStatic(d, cfg, en1, hs', ids, e.out);
      }
      StaticTrans(en.sys, en1.sys, Step(d, cfg, en, fuel).sys);
    }
  }

  lemma {:induction false} ApplyAllStatic(d: Decoder, cfg: Config, en: Engine, hs: seq<Hist>, pending: seq<Id>, out: Output)
    requires Mid(d, cfg, en, hs, pending, out, true)
    ensures Static(en.sys, ApplyAll(cfg, en, out, pending).sys)
    decreases |pending|
  {
    hide Mid, ApplyOne;
    if pending != [] {
      PendingIn(d, cfg, en, hs, pending, out, true);
      ApplyOneStatic(cfg, en, out, pending[0]);
      var hs' := ApplyOneMid(d, cfg, en, hs, pending, out);
      ApplyAllStatic(d, cfg, ApplyOne(cfg, en, out, pending[0]), hs', pending[1..], out);
    }
  }

  lemma QueuesDistinct(sys: Sys)
    requires Queues(sys)
    ensures Distinct(sys.waiting)
  {
  }

  // ---------------------------------------------------------------------------- termination

  /** Every request the server knows fits an idle pool. */
  ghost predicate AllFit(cfg: Config, sys: Sys) {
    forall id :: id in sys.reqs ==> Needed(sys, sys.reqs[id]) <= Bound(cfg, sys)
  }

  lemma AllFitStatic(cfg: Config, sys: Sys, sys': Sys)
    requires AllFit(cfg, sys) && Static(sys, sys')
    ensures AllFit(cfg, sys')
  {
  }

  function Iterations(d: Decoder, cfg: Config, en: Engine, fuels: seq<nat>): Engine
    decreases |fuels|
  {
    if fuels == [] || !HasWork(en.sys) then en else Iterations(d, cfg, Step(d, cfg, en, fuels[0]), fuels[1..])
  }

  /** Every request still waiting fits an idle pool. */
  ghost predicate WaitingFit(cfg: Config, sys: Sys) {
    forall id :: id in sys.waiting ==> Needed(sys, At(sys.reqs, id)) <= Bound(cfg, sys)
  }

  lemma AvailableBound(d: Decoder, cfg: Config, en: Engine, hs: seq<Hist>)
    requires EngineInv(d, cfg, en, hs)
    ensures Available(cfg, en.sys) <= Bound(cfg, en.sys) && Distinct(en.sys.waiting)
  {
    hide Streams, Lives, CacheInv, AllHeld, Tenant;
    P.ExactPassesChecks(en.sys.arena.store.pool, AllHeld(en.sys.arena));
  }

  /** A step takes some requests from the head of the queue, each of which fits, and no others. */
  lemma StepWaiting(d: Decoder, cfg: Config, en: Engine, hs: seq<Hist>, fuel: nat) returns (k: nat)
    requires EngineInv(d, cfg, en, hs)
    ensures k <= |en.sys.waiting| && Step(d, cfg, en, fuel).sys.waiting == en.sys.waiting[k..]
    ensures forall i :: 0 <= i < k ==> Needed(en.sys, At(en.sys.reqs, en.sys.waiting[i])) <= Bound(cfg, en.sys)
  {
    hide EngineInv, Schedule, Execute, FailAll, ApplyAll, Needed, Available, Bound, Stopped;
    AvailableBound(d, cfg, en, hs);
    k := ScheduleDecides(cfg, en.sys);
    var (sys, b) := Schedule(cfg, en.sys);
    var e := Execute(d, cfg, sys, b, fuel);
    var en1 := en.(sys := sys.(reqs := e.reqs, arena := e.arena));
    FailAllWaiting(en1, b.prefill + b.decode);
    ApplyAllWaiting(cfg, en1, e.out, b.prefill + b.decode);
  }

  /** Whether everything waiting fits is settled when it arrives. */
  lemma StepWaitingFit(d: Decoder, cfg: Config, en: Engine, hs: seq<Hist>, fuel: nat)
    requires EngineInv(d, cfg, en, hs)
    ensures WaitingFit(cfg, Step(d, cfg, en, fuel).sys) <==> WaitingFit(cfg, en.sys)
  {
    hide Step, EngineInv, Needed, Bound;
    var k := StepWaiting(d, cfg, en, hs, fuel);
    StepIsStatic(d, cfg, en, hs, fuel);
    var sys, sys' := en.sys, Step(d, cfg, en, fuel).sys;
    StaticNeeds(cfg, sys, sys');
    assert sys.waiting == sys.waiting[..k] + sys'.waiting;
    forall id | id in sys.waiting ensures id in sys'.waiting || Needed(sys, At(sys.reqs, id)) <= Bound(cfg, sys) {
      var i :| 0 <= i < |sys.waiting| && sys.waiting[i] == id;
      if i >= k {
        assert sys'.waiting[i - k] == id;
      }
    }
  }

  lemma StaticNeeds(cfg: Config, sys: Sys, sys': Sys)
    requires Static(sys, sys')
    ensures Bound(cfg, sys') == Bound(cfg, sys)
    ensures forall id :: Needed(sys', At(sys'.reqs, id)) == Needed(sys, At(sys.reqs, id))
  {
    assert forall id :: id in sys'.reqs <==> id in sys'.reqs.Keys;
  }

  /** A finite workload drains exactly when each request in it fits an idle pool. If all do, then
      whatever faults strike, as many iterations as there are tokens left to process empty both
      queues; and one that does not is never admitted. */
  lemma {:induction false} Drains(d: Decoder, cfg: Config, en: Engine, hs: seq<Hist>, fuels: seq<nat>)
    requires EngineInv(d, cfg, en, hs) && PositiveLimits(cfg) && cfg.chunk > 0
    requires |fuels| >= Measure(en.sys)
    ensures !HasWork(Iterations(d, cfg, en, fuels).sys) <==> WaitingFit(cfg, en.sys)
    decreases |fuels|
  {
    hide EngineInv, Schedule, Step, Measure, WaitingFit, Needed, Bound;
    if !HasWork(en.sys) {
      NothingWaits(cfg, en.sys);
    } else {
      InvMeasure(d, cfg, en, hs);
      EmptyBatchIff(d, cfg, en, hs);
      var en' := Step(d, cfg, en, fuels[0]);
      StepDecreases(d, cfg, en, hs, fuels[0]);
      var hs' := StepKeeps(d, cfg, en, hs, fuels[0]);
      StepWaitingFit(d, cfg, en, hs, fuels[0]);
      if WaitingFit(cfg, en.sys) {
        HeadWaits(cfg, en.sys);
        Drains(d, cfg, en', hs', fuels[1..]);
      } else {
        NeverDrains(d, cfg, en', hs', fuels[1..]);
      }
    }
  }

  lemma NothingWaits(cfg: Config, sys: Sys)
    requires sys.waiting == []
    ensures WaitingFit(cfg, sys)
  {
  }

  lemma HeadWaits(cfg: Config, sys: Sys)
    requires WaitingFit(cfg, sys)
    ensures sys.waiting != [] ==> Needed(sys, At(sys.reqs, sys.waiting[0])) <= Bound(cfg, sys)
  {
    if sys.waiting != [] {
      assert sys.waiting[0] in sys.waiting;
    }
  }

  /** A request that fits no idle pool keeps the workload from ever draining. */
  lemma {:induction false} NeverDrains(d: Decoder, cfg: Config, en: Engine, hs: seq<Hist>, fuels: seq<nat>)
    requires EngineInv(d, cfg, en, hs) && !WaitingFit(cfg, en.sys)
    ensures HasWork(Iterations(d, cfg, en, fuels).sys)
    decreases |fuels|
  {
    hide EngineInv, Step, WaitingFit;
    if en.sys.waiting == [] {
      NothingWaits(cfg, en.sys);
    }
    if fuels != [] && HasWork(en.sys) {
      StepWaitingFit(d, cfg, en, hs, fuels[0]);
      var hs' := StepKeeps(d, cfg, en, hs, fuels[0]);
      NeverDrains(d, cfg, Step(d, cfg, en, fuels[0]), hs', fuels[1..]);
    }
  }

  lemma InvMeasure(d: Decoder, cfg: Config, en: Engine, hs: seq<Hist>)
    requires EngineInv(d, cfg, en, hs)
    ensures Measure(en.sys) >= |en.sys.waiting| + |en.sys.running|
  {
    hide ExecOk, Streams, Measure;
    MeasureCounts(d, cfg, en.sys);
  }

  lemma HeadFits(d: Decoder, cfg: Config, en: Engine, hs: seq<Hist>)
    requires EngineInv(d, cfg, en, hs) && AllFit(cfg, en.sys)
    ensures en.sys.waiting != [] ==> Needed(en.sys, At(en.sys.reqs, en.sys.waiting[0])) <= Bound(cfg, en.sys)
  {
    hide ExecOk, Streams, Lives, Needed, CacheLength;
    if en.sys.waiting != [] {
      assert en.sys.waiting[0] in en.sys.waiting;
    }
  }

  /** An oversize request at the head is never rejected: no iteration changes anything. */
  lemma {:induction false} OversizeBlocksForever(d: Decoder, cfg: Config, en: Engine, hs: seq<Hist>, fuels: seq<nat>)
    requires EngineInv(d, cfg, en, hs) && PositiveLimits(cfg) && en.sys.running == [] && en.sys.waiting != []
    requires Needed(en.sys, At(en.sys.reqs, en.sys.waiting[0])) > Bound(cfg, en.sys)
    ensures Iterations(d, cfg, en, fuels) == en
    decreases |fuels|
  {
    hide EngineInv, Needed;
    if fuels != [] {
      assert Schedule(cfg, en.sys).0 == en.sys && Schedule(cfg, en.sys).1 == Batch([], []) by {
        IdlePool(d, cfg, en, hs);
      }
      assert Step(d, cfg, en, fuels[0]) == en;
      OversizeBlocksForever(d, cfg, en, hs, fuels[1..]);
    }
  }

  /** From an empty server: submit one request that needs more blocks than the pool has outside the
      reserve, and after any number of iterations it still waits, its stream open and without an event. */
  lemma OversizeNeverServed(d: Decoder, cfg: Config, numBlocks: nat, blockSize: nat, zero: KV, r: Request, fuels: seq<nat>)
    requires d.layers > 0 && blockSize > 0 && PositiveLimits(cfg) && WaitOk(r)
    requires CeilDiv(|r.prompt| + r.maxNew, blockSize) > Max(0, numBlocks - cfg.reserve)
    ensures var actions := [Submit(r), DrainInbox];
      var en1 := EngineRuns.Run(d, cfg, Start(d.layers, numBlocks, blockSize, zero), actions);
      var en := Iterations(d, cfg, en1, fuels);
      && EngineRuns.Permitted(d, cfg, Start(d.layers, numBlocks, blockSize, zero), actions)
      && en.sys.waiting == [r.id] && en.sys.running == [] && HasWork(en.sys)
      && en.log == [] && en.emitters == [r.id]
  {
    var en0 := Start(d.layers, numBlocks, blockSize, zero);
    var en := OneLoaded(d, cfg, numBlocks, blockSize, zero, r);
    hide EngineInv, CeilDiv, WaitOk, Act, Start, Iterations, Known;
    assert [Submit(r), DrainInbox][1..] == [DrainInbox] && [DrainInbox][1..] == [];
    var en1 := Act(d, cfg, en0, Submit(r));
    assert EngineRuns.Run(d, cfg, en1, [DrainInbox]) == EngineRuns.Run(d, cfg, en, []) == en;
    assert EngineRuns.Permitted(d, cfg, en1, [DrainInbox]);
    IdlePool(d, cfg, en, []);
    OversizeBlocksForever(d, cfg, en, [], fuels);
  }
}
