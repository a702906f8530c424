/** What a failing iteration does to the streams: it closes those of its whole batch, each with an error,
    and no other. */
module Failures {
  import opened Common
  import opened Tensors
  import opened Decoders
  import PagingProofs
  import opened Arenas
  import opened Requests
  import opened Scheduling
  import opened Serving
  import X = ExecutionProofs
  import opened LifecycleProofs
  import opened EngineProofs
  import opened EngineRuns
  import opened ExhaustionProofs
  import opened NoExhaustion
  import opened Shortage
  import opened BrokenPromise
  import opened PreemptionRuns

  /** This request's stream ended with an error and nothing before it. */
  ghost predicate Failed(en: Engine, en': Engine, id: Id) {
    && For(en'.log, id) == For(en.log, id) + [DoneEvent(id, true, false)]
    && id !in en'.emitters && id !in en'.sys.running && id in en'.sys.finished
  }

  /** Nothing about this request changed, nor was anything said of it. */
  ghost predicate Spared(en: Engine, en': Engine, id: Id) {
    && For(en'.log, id) == For(en.log, id) && (id in en'.emitters <==> id in en.emitters)
    && (id in en'.sys.running <==> id in en.sys.running) && (id in en'.sys.finished <==> id in en.sys.finished)
    && (id in en.sys.reqs ==> id in en'.sys.reqs && en'.sys.reqs[id] == en.sys.reqs[id])
  }

  lemma FailOneCloses(d: Decoder, cfg: Config, en: Engine, hs: seq<Hist>, pending: seq<Id>, out: Output)
    requires Mid(d, cfg, en, hs, pending, out, false) && pending != []
    ensures var en' := FailOne(en, pending[0]);
      && Failed(en, en', pending[0]) && en'.sys.waiting == en.sys.waiting
      && forall id :: id != pending[0] ==> Spared(en, en', id)
  {
    hide X.ExecOk, Lives, For, Tokens, Closed, Release, FailOne, Greedy, Remove;
    var id := pending[0];
    FailOneRetires(d, cfg, en, hs, pending, out);
    MidFacts(d, cfg, en, hs, pending, out, false);
    var ev := DoneEvent(id, true, false);
    forall x ensures For(en.log + [ev], x) == if x == id then For(en.log, x) + [ev] else For(en.log, x) {
      ForPush(en.log, ev, x);
    }
    SetQueues(en, en.sys.reqs[id]);
    FinishQueues(Set(en, en.sys.reqs[id]).sys, id);
    RemoveFacts(en.emitters, id);
  }

  lemma {:induction false} FailAllCloses(d: Decoder, cfg: Config, en: Engine, hs: seq<Hist>, pending: seq<Id>, out: Output)
    requires Mid(d, cfg, en, hs, pending, out, false)
    ensures var en' := FailAll(en, pending);
      && en'.sys.waiting == en.sys.waiting
      && forall id :: if id in pending then Failed(en, en', id) else Spared(en, en', id)
    decreases |pending|
  {
    hide Mid, FailOne, For;
    if pending != [] {
      FailOneCloses(d, cfg, en, hs, pending, out);
      MidOnce(d, cfg, en, hs, pending, out);
      var hs1 := FailOneMid(d, cfg, en, hs, pending, out);
      var en1, en' := FailOne(en, pending[0]), FailAll(en, pending);
      FailAllCloses(d, cfg, en1, hs1, pending[1..], out);
      forall id ensures if id in pending then Failed(en, en', id) else Spared(en, en', id) {
        assert id in pending <==> id == pending[0] || id in pending[1..];
        assert if id in pending[1..] then Failed(en1, en', id) else Spared(en1, en', id);
        if id != pending[0] {
          assert Spared(en, en1, id);
        }
      }
    }
  }

  lemma MidOnce(d: Decoder, cfg: Config, en: Engine, hs: seq<Hist>, pending: seq<Id>, out: Output)
    requires Mid(d, cfg, en, hs, pending, out, false) && pending != []
    ensures pending[0] !in pending[1..]
  {
    hide X.ExecOk, Lives, Streams, Queues;
  }

  /** An exception in one request's turn is everybody's: when the executor raises anything, exactly the
      streams of the requests scheduled in that iteration close, each with an error, and every other
      request goes on as it was. */
  lemma FailingStepCloses(d: Decoder, cfg: Config, en: Engine, hs: seq<Hist>, fuel: nat)
    requires EngineInv(d, cfg, en, hs) && StepError(d, cfg, en, fuel).Some?
    ensures var (sys, b) := Schedule(cfg, en.sys);
      var ids, en' := b.prefill + b.decode, Step(d, cfg, en, fuel);
      && ids != [] && en'.sys.waiting == sys.waiting
      && forall id :: if id in ids then Failed(en, en', id) else Spared(en.(sys := sys), en', id)
  {
    hide EngineInv, Schedule, Execute, Mid, FailAll, For;
    ScheduleKeeps(d, cfg, en, hs);
    var (sys, b) := Schedule(cfg, en.sys);
    var ids, en0 := b.prefill + b.decode, en.(sys := sys);
    var hs1 := ExecuteMid(d, cfg, en0, b, hs, fuel);
    var e := Execute(d, cfg, sys, b, fuel);
    var en1 := en.(sys := sys.(reqs := e.reqs, arena := e.arena));
    FailAllCloses(d, cfg, en1, hs1, ids, e.out);
    ExecuteSpares(d, cfg, en0, b, hs, fuel);
  }

  lemma ExecuteSpares(d: Decoder, cfg: Config, en: Engine, b: Batch, hs: seq<Hist>, fuel: nat)
    requires EngineInv(d, cfg, en, hs) && Distinct(b.prefill + b.decode)
    requires forall id :: id in b.prefill + b.decode ==>
      && id in en.sys.running && id in en.sys.reqs
      && en.sys.reqs[id].state == if id in b.prefill then Prefilling else Decoding
    ensures var e := Execute(d, cfg, en.sys, b, fuel);
      forall id :: id in en.sys.reqs && id !in b.prefill + b.decode ==> id in e.reqs && e.reqs[id] == en.sys.reqs[id]
  {
    hide Execute, X.ExecOk, X.Ready, X.AllReported, Streams, X.Held;
    forall id | id in b.prefill + b.decode
      ensures en.sys.reqs[id].id == id && X.Ready(d, en.sys.reqs[id], en.sys.arena)
    {
      ReadyFrom(d, cfg, en.sys.reqs[id], en.sys.arena);
    }
    var hs1 := X.BatchCorrect(d, cfg, en.sys, b, hs, fuel);
  }

  /** Two requests race for the last block, which one of them could have: both fail. */
  lemma LastBlockFailsBoth(d: Decoder, zero: KV, fuel: nat)
    requires d.layers > 0 && fuel >= DeviceSteps(2, d.layers)
    ensures var en0 := Start(d.layers, 5, 2, zero);
      && EngineRuns.Permitted(d, Lean(2), en0, BothAdmitted(2, fuel))
      && var en := Act(d, Lean(2), Run(d, Lean(2), en0, BothAdmitted(2, fuel)), Iterate(fuel));
      && en.sys.running == [0, 1] && NumFree(en.sys) == 1
      && 0 in en.sys.reqs && 1 in en.sys.reqs
      && Wants(Lean(2).chunk, en.sys.arena, en.sys.reqs[0]) == Wants(Lean(2).chunk, en.sys.arena, en.sys.reqs[1]) == 1
      && var en' := Act(d, Lean(2), en, Iterate(fuel));
      && StepError(d, Lean(2), en, fuel) == Some(OutOfBlocks) && Failed(en, en', 0) && Failed(en, en', 1)
  {
    hide Start, Run, EngineRuns.Permitted, BothAdmitted, EngineInv, Step, StepError, Schedule, DeviceSteps, Wants, Has, For, AllHeld, PagingProofs.Unshared;
    var en2, hs2 := ReachBoth(d, 2, zero, fuel);
    var hs := LaterStep(d, 2, en2, hs2, 2, fuel);
    var en := Act(d, Lean(2), en2, Iterate(fuel));
    var hs' := LaterStep(d, 2, en, hs, 3, fuel);
    BothWant(d, 2, en, hs, 3);
    assert 0 in [0, 1] && 1 in [0, 1];
    BothDecode(2, en.sys);
    assert [] + [0, 1] == [0, 1];
    FailingStepCloses(d, Lean(2), en, hs, fuel);
  }
}
