/** Whole runs of the serving stack: any interleaving of submissions, drains, worker iterations with
    faults before, between and after their cache updates, and shutdown. */
module EngineRuns {
  import opened Common
  import opened Tensors
  import opened Decoders
  import opened PagingProofs
  import opened Arenas
  import opened ArenaRuns
  import opened Requests
  import opened Scheduling
  import opened Serving
  import opened ForwardProofs
  import opened ExecutionProofs
  import opened LifecycleProofs
  import opened EngineProofs

  /** The atomic steps: the event loop submits, the worker thread drains its inbox, runs one
      iteration (with a fault once the device has run `fuel` pieces, or none), or sees the stop flag and exits. */
  datatype Action = Submit(r: Request) | DrainInbox | Iterate(fuel: nat) | Exit

  function Act(d: Decoder, cfg: Config, en: Engine, action: Action): Engine {
    if !en.alive then en
    else match action
      case Submit(r) => en.(inbox := en.inbox + [r])
      case DrainInbox => Drain(en)
      case Iterate(fuel) => if HasWork(en.sys) then Step(d, cfg, en, fuel) else en
      case Exit => en.(log := en.log + CloseEvents(en.emitters), emitters := [], alive := false)
  }

  function Run(d: Decoder, cfg: Config, en: Engine, actions: seq<Action>): Engine
    decreases |actions|
  {
    if actions == [] then en else Run(d, cfg, Act(d, cfg, en, actions[0]), actions[1..])
  }

  function Start(layers: nat, numBlocks: nat, blockSize: nat, zero: KV): Engine {
    Engine(Sys(map[], [], [], [], Arenas.Init(layers, numBlocks, blockSize, 0, zero)), [], [], [], true)
  }

  ghost predicate Known(en: Engine, id: Id) {
    id in en.sys.reqs || exists i :: 0 <= i < |en.inbox| && en.inbox[i].id == id
  }

  /** Ids are unique, and a request arrives with a prompt and no progress. */
  ghost predicate Permitted(d: Decoder, cfg: Config, en: Engine, actions: seq<Action>)
    decreases |actions|
  {
    actions == [] ||
    (&& (actions[0].Submit? ==> WaitOk(actions[0].r) && !Known(en, actions[0].r.id))
     && Permitted(d, cfg, Act(d, cfg, en, actions[0]), actions[1..]))
  }

  ghost predicate InboxOk(en: Engine) {
    && (forall i :: 0 <= i < |en.inbox| ==> WaitOk(en.inbox[i]) && en.inbox[i].id !in en.sys.reqs)
    && (forall i, j :: 0 <= i < j < |en.inbox| ==> en.inbox[i].id != en.inbox[j].id)
  }

  /** After the worker is gone: every stream it ever opened has its tokens and one closing event. */
  ghost predicate Settled(d: Decoder, cfg: Config, en: Engine) {
    && (forall id :: id !in en.sys.reqs ==> For(en.log, id) == [])
    && (forall id :: id in en.sys.reqs ==>
          && en.sys.reqs[id].id == id && WellFormed(en.sys.reqs[id])
          && Greedy(d, PromptInputs(d, en.sys.reqs[id]), en.sys.reqs[id].gen)
          && Closed(cfg, en.sys.reqs[id], For(en.log, id)))
  }

  ghost predicate RunInv(d: Decoder, cfg: Config, en: Engine, hs: seq<Hist>) {
    InboxOk(en) && if en.alive then EngineInv(d, cfg, en, hs) else Settled(d, cfg, en)
  }

  lemma StartOk(d: Decoder, cfg: Config, numBlocks: nat, blockSize: nat, zero: KV)
    requires d.layers > 0 && blockSize > 0
    ensures RunInv(d, cfg, Start(d.layers, numBlocks, blockSize, zero), [])
  {
    InitInv(d.layers, numBlocks, blockSize, 0, zero, NOTHING);
  }

  /** Draining one submission: the request waits, with an open and empty stream. */
  lemma DrainOne(d: Decoder, cfg: Config, en: Engine, hs: seq<Hist>)
    requires EngineInv(d, cfg, en, hs) && InboxOk(en) && en.inbox != []
    ensures var r := en.inbox[0];
      var en' := en.(inbox := en.inbox[1..], emitters := if r.id in en.emitters then en.emitters else en.emitters + [r.id], sys := AddRequest(en.sys, r));
      EngineInv(d, cfg, en', hs) && InboxOk(en')
  {
    hide ExecOk, For, Closed, Tokens, RunOk, DoneOk, CacheLength, Streams;
    var r := en.inbox[0];
    assert r.(state := Waiting) == r;
    var sys' := AddRequest(en.sys, r);
    AddedQueues(en.sys, r);
    AddedExec(d, en.sys, sys', hs, r);
    AddedStreams(cfg, en, r, en.inbox[1..]);
  }

  lemma AddedQueues(sys: Sys, r: Request)
    requires Queues(sys) && r.id !in sys.reqs
    ensures Queues(AddRequest(sys, r))
  {
    DistinctJoin(sys.waiting, [r.id]);
  }

  lemma AddedStreams(cfg: Config, en: Engine, r: Request, rest: seq<Request>)
    requires Queues(en.sys) && Streams(cfg, en) && r.id !in en.sys.reqs && WaitOk(r)
    ensures r.id !in en.emitters
    ensures Streams(cfg, en.(inbox := rest, emitters := en.emitters + [r.id], sys := AddRequest(en.sys, r)))
  {
    hide For, Closed;
    DistinctJoin(en.emitters, [r.id]);
    assert r.(state := Waiting) == r;
    assert Tokens(r.id, r.gen) == [];
  }

  lemma AddedExec(d: Decoder, sys: Sys, sys': Sys, hs: seq<Hist>, r: Request)
    requires Queues(sys) && ExecOk(d, sys.reqs, sys.arena, sys.running, hs, {}) && r.id !in sys.reqs
    requires sys' == AddRequest(sys, r)
    ensures ExecOk(d, sys'.reqs, sys'.arena, sys'.running, hs, {})
    ensures forall id :: id in sys.running ==> id in sys.reqs && id in sys'.reqs && sys'.reqs[id] == sys.reqs[id]
  {
    hide ArenaOk, Owns;
    forall c | 0 <= c < |sys.arena.caches| && sys.arena.caches[c].table.blocks != []
      ensures exists j :: j in sys'.running && j in sys'.reqs && sys'.reqs[j].cache == Some(c)
    {
      var j :| j in sys.running && j in sys.reqs && sys.reqs[j].cache == Some(c);
      assert j in sys'.running && j in sys'.reqs && sys'.reqs[j].cache == Some(c);
    }
  }

  lemma {:induction false} DrainKeeps(d: Decoder, cfg: Config, en: Engine, hs: seq<Hist>)
    requires EngineInv(d, cfg, en, hs) && InboxOk(en)
    ensures EngineInv(d, cfg, Drain(en), hs) && InboxOk(Drain(en)) && Drain(en).alive == en.alive
    decreases |en.inbox|
  {
    hide EngineInv, InboxOk;
    if en.inbox != [] {
      DrainOne(d, cfg, en, hs);
      var r := en.inbox[0];
      DrainKeeps(d, cfg, en.(inbox := en.inbox[1..], emitters := if r.id in en.emitters then en.emitters else en.emitters + [r.id], sys := AddRequest(en.sys, r)), hs);
    }
  }

  /** An empty server with one request submitted and drained. */
  lemma OneLoaded(d: Decoder, cfg: Config, numBlocks: nat, blockSize: nat, zero: KV, r: Request) returns (en: Engine)
    requires d.layers > 0 && blockSize > 0 && WaitOk(r)
    ensures var en0 := Start(d.layers, numBlocks, blockSize, zero);
      !Known(en0, r.id) && en0.alive && en == Act(d, cfg, Act(d, cfg, en0, Submit(r)), DrainInbox)
    ensures EngineInv(d, cfg, en, []) && Unshared(AllHeld(en.sys.arena)) && en.alive
    ensures en.sys.waiting == [r.id] && en.sys.running == [] && en.sys.reqs == map[r.id := r]
    ensures en.sys.arena.store.pool.blockSize == blockSize && NumFree(en.sys) == numBlocks
    ensures en.log == [] && en.emitters == [r.id]
  {
    hide EngineInv, WaitOk;
    var en0 := Start(d.layers, numBlocks, blockSize, zero);
    StartOk(d, cfg, numBlocks, blockSize, zero);
    var en1 := en0.(inbox := [r]);
    assert [] + [r] == [r];
    SameSys(d, cfg, en0, en1, []);
    DrainKeeps(d, cfg, en1, []);
    assert r.(state := Waiting) == r by { WaitState(r); }
    assert en1.inbox[1..] == [] && [] + [r.id] == [r.id];
    var en2 := en1.(inbox := [], emitters := [r.id], sys := AddRequest(en1.sys, r));
    assert Drain(en1) == Drain(en2) == en2;
    assert AllHeld(en0.sys.arena) == multiset{};
    en := en2;
  }

  lemma WaitState(r: Request)
    requires WaitOk(r)
    ensures r.state == Waiting && r.offset == 0 && r.gen == [] && r.cache == None && r.prompt != []
  {
  }

  // ------------------------------------------------------------------------------- shutdown

  lemma {:induction false} CloseEventsFor(log: seq<Event>, ids: seq<Id>, id: Id)
    requires Distinct(ids)
    ensures For(log + CloseEvents(ids), id) == if id in ids then For(log, id) + [DoneEvent(id, true, false)] else For(log, id)
    decreases |ids|
  {
    if ids == [] {
      assert log + CloseEvents(ids) == log;
    } else {
      var n := |ids| - 1;
      CloseEventsFor(log, ids[..n], id);
      assert log + CloseEvents(ids) == (log + CloseEvents(ids[..n])) + [DoneEvent(ids[n], true, false)];
      ForPush(log + CloseEvents(ids[..n]), DoneEvent(ids[n], true, false), id);
      assert ids == ids[..n] + [ids[n]];
    }
  }

  lemma ExitSettles(d: Decoder, cfg: Config, en: Engine, hs: seq<Hist>)
    requires EngineInv(d, cfg, en, hs)
    ensures Settled(d, cfg, en.(log := en.log + CloseEvents(en.emitters), emitters := [], alive := false))
  {
    hide ExecOk, For, CacheLength, Greedy, Tokens, Stops, WellFormed;
    var log' := en.log + CloseEvents(en.emitters);
    forall id ensures For(log', id) == if id in en.emitters then For(en.log, id) + [DoneEvent(id, true, false)] else For(en.log, id) {
      CloseEventsFor(en.log, en.emitters, id);
    }
    forall id | id in en.sys.reqs
      ensures WellFormed(en.sys.reqs[id])
      ensures Greedy(d, PromptInputs(d, en.sys.reqs[id]), en.sys.reqs[id].gen)
      ensures Closed(cfg, en.sys.reqs[id], For(log', id))
    {
      var r := en.sys.reqs[id];
      if id in en.emitters {
        ClosedByError(cfg, r);
        if id in en.sys.waiting {
          NothingGenerated(d, r);
        }
      }
    }
  }

  lemma NothingGenerated(d: Decoder, r: Request)
    requires WaitOk(r)
    ensures Greedy(d, PromptInputs(d, r), r.gen) && WellFormed(r)
  {
  }

  // ----------------------------------------------------------------------------------- runs

  lemma SubmitKeeps(en: Engine, r: Request)
    requires InboxOk(en) && WaitOk(r) && !Known(en, r.id)
    ensures InboxOk(en.(inbox := en.inbox + [r]))
  {
  }

  lemma {:induction false} FailAllKeys(en: Engine, ids: seq<Id>)
    requires forall id :: id in ids ==> id in en.sys.reqs
    ensures var en' := FailAll(en, ids);
      en'.sys.reqs.Keys == en.sys.reqs.Keys && en'.inbox == en.inbox && en'.alive == en.alive
    decreases |ids|
  {
    hide Release, Remove;
    if ids != [] {
      FailAllKeys(FailOne(en, ids[0]), ids[1..]);
    }
  }

  lemma {:induction false} ApplyAllKeys(cfg: Config, en: Engine, out: Output, ids: seq<Id>)
    requires forall id :: id in ids ==> id in en.sys.reqs
    ensures var en' := ApplyAll(cfg, en, out, ids);
      en'.sys.reqs.Keys == en.sys.reqs.Keys && en'.inbox == en.inbox && en'.alive == en.alive
    decreases |ids|
  {
    hide Release, Remove, Stops;
    if ids != [] {
      ApplyOneKeys(cfg, en, out, ids[0]);
      ApplyAllKeys(cfg, ApplyOne(cfg, en, out, ids[0]), out, ids[1..]);
    }
  }

  lemma ApplyOneKeys(cfg: Config, en: Engine, out: Output, id: Id)
    requires id in en.sys.reqs
    ensures var en' := ApplyOne(cfg, en, out, id);
      en'.sys.reqs.Keys == en.sys.reqs.Keys && en'.inbox == en.inbox && en'.alive == en.alive
  {
    hide Release, Remove, Stops;
  }

  lemma StepKeepsInbox(d: Decoder, cfg: Config, en: Engine, hs: seq<Hist>, fuel: nat)
    requires EngineInv(d, cfg, en, hs)
    ensures var en' := Step(d, cfg, en, fuel);
      en'.sys.reqs.Keys == en.sys.reqs.Keys && en'.inbox == en.inbox && en'.alive == en.alive
  {
    hide Schedule, Execute, ExecOk, Lives, Streams, CacheLength, Stopped, Fitted, FailAll, ApplyAll, Ready, AllReported, Reported;
    ScheduleKeeps(d, cfg, en, hs);
    var k := ScheduleDecides(cfg, en.sys);
    var (sys, b) := Schedule(cfg, en.sys);
    DecisionKeys(cfg, en.sys, sys, b, k);
    if !(b.prefill == [] && b.decode == []) {
      var ids := b.prefill + b.decode;
      var e := Execute(d, cfg, sys, b, fuel);
      ExecuteKeys(d, cfg, en.(sys := sys), b, hs, fuel);
      var en1 := en.(sys := sys.(reqs := e.reqs, arena := e.arena));
      if e.error.Some? {
        FailAllKeys(en1, ids);
      } else {
        ApplyAllKeys(cfg, en1, e.out, ids);
      }
    }
  }

  lemma DecisionKeys(cfg: Config, sys: Sys, sys': Sys, b: Batch, k: nat)
    requires Queues(sys) && Decision(cfg, sys, sys', b, k)
    ensures sys'.reqs.Keys == sys.reqs.Keys
  {
    hide InState, Take;
    assert forall id :: id in sys.waiting[..k] ==> id in sys.waiting;
  }

  lemma ExecuteKeys(d: Decoder, cfg: Config, en: Engine, b: Batch, hs: seq<Hist>, fuel: nat)
    requires EngineInv(d, cfg, en, hs) && Distinct(b.prefill + b.decode)
    requires forall id :: id in b.prefill + b.decode ==>
      && id in en.sys.running && id in en.sys.reqs
      && en.sys.reqs[id].state == if id in b.prefill then Prefilling else Decoding
    ensures Execute(d, cfg, en.sys, b, fuel).reqs.Keys == en.sys.reqs.Keys
  {
    hide Execute, ExecOk, Ready, AllReported, Streams;
    forall id | id in b.prefill + b.decode
      ensures en.sys.reqs[id].id == id && Ready(d, en.sys.reqs[id], en.sys.arena)
    {
      ReadyFrom(d, cfg, en.sys.reqs[id], en.sys.arena);
    }
    var hs' := BatchCorrect(d, cfg, en.sys, b, hs, fuel);
  }

  lemma ActKeeps(d: Decoder, cfg: Config, en: Engine, hs: seq<Hist>, action: Action) returns (hs': seq<Hist>)
    requires RunInv(d, cfg, en, hs)
    requires action.Submit? ==> WaitOk(action.r) && !Known(en, action.r.id)
    ensures RunInv(d, cfg, Act(d, cfg, en, action), hs')
  {
    hide EngineInv, Settled, Step, Drain, WaitOk;
    hs' := hs;
    if en.alive {
      match action
      case Submit(r) =>
        SubmitKeeps(en, r);
        SameSys(d, cfg, en, en.(inbox := en.inbox + [r]), hs);
      case DrainInbox => DrainKeeps(d, cfg, en, hs);
      case Iterate(fuel) =>
        if HasWork(en.sys) {
          hs' := StepKeeps(d, cfg, en, hs, fuel);
          StepKeepsInbox(d, cfg, en, hs, fuel);
        }
      case Exit => ExitSettles(d, cfg, en, hs);
    }
  }

  lemma SameSys(d: Decoder, cfg: Config, en: Engine, en': Engine, hs: seq<Hist>)
    requires EngineInv(d, cfg, en, hs) && en'.sys == en.sys && en'.log == en.log && en'.emitters == en.emitters
    ensures EngineInv(d, cfg, en', hs)
  {
  }

  lemma {:induction false} RunKeeps(d: Decoder, cfg: Config, en: Engine, hs: seq<Hist>, actions: seq<Action>) returns (hs': seq<Hist>)
    requires RunInv(d, cfg, en, hs) && Permitted(d, cfg, en, actions)
    ensures RunInv(d, cfg, Run(d, cfg, en, actions), hs')
    decreases |actions|
  {
    hide RunInv, Act, WaitOk, Known;
    hs' := hs;
    if actions != [] {
      hs' := ActKeeps(d, cfg, en, hs, actions[0]);
      hs' := RunKeeps(d, cfg, Act(d, cfg, en, actions[0]), hs', actions[1..]);
    }
  }

  // ------------------------------------------------------------------------- what runs mean

  /** A stream that closed without an error delivered exactly what serving the request alone, on a
      private contiguous cache, generates. */
  ghost predicate SoloIfOk(d: Decoder, cfg: Config, r: Request, events: seq<Event>) {
    forall stopped :: events != [] && events[|events| - 1] == DoneEvent(r.id, false, stopped) ==>
      && WellFormed(r)
      && PromptInputs(d, r) != []
      && events == Tokens(r.id, Solo(d, PromptInputs(d, r), r.maxNew, cfg.eos)) + [DoneEvent(r.id, false, stopped)]
  }

  lemma ClosedIsSolo(d: Decoder, cfg: Config, r: Request, events: seq<Event>)
    requires WellFormed(r) && Greedy(d, PromptInputs(d, r), r.gen) && Closed(cfg, r, events)
    ensures SoloIfOk(d, cfg, r, events)
  {
    hide Greedy, StopsAtEnd, Solo;
    var error, stopped :|
      && events == Tokens(r.id, r.gen) + [DoneEvent(r.id, error, stopped)]
      && (!error ==> StopsAtEnd(r.gen, r.maxNew, cfg.eos) && stopped == HitEos(r, cfg.eos));
    PromptNotEmpty(d, r);
    if !error {
      GreedyIsSolo(d, PromptInputs(d, r), r.gen, r.maxNew, cfg.eos);
    }
  }

  lemma PromptNotEmpty(d: Decoder, r: Request)
    requires WellFormed(r)
    ensures PromptInputs(d, r) != []
  {
  }

  /** Serving refines solo greedy decoding, and delivery is exactly once: over every run from an
      empty server, whatever arrives when, in whatever batches and chunks, with faults before, between and
      after any cache updates, each request's stream is its generated tokens in order, with one closing
      event after them once it is over; what closed without error is the solo generation; and after the worker exits every
      drained request has its closing event and no other request has any event. */
  lemma ServingRefinesSolo(d: Decoder, cfg: Config, numBlocks: nat, blockSize: nat, zero: KV, actions: seq<Action>)
    requires d.layers > 0 && blockSize > 0
    requires Permitted(d, cfg, Start(d.layers, numBlocks, blockSize, zero), actions)
    ensures var en := Run(d, cfg, Start(d.layers, numBlocks, blockSize, zero), actions);
      && (forall id :: id !in en.sys.reqs ==> For(en.log, id) == [])
      && (forall id :: id in en.sys.reqs ==>
            && (For(en.log, id) == Tokens(id, en.sys.reqs[id].gen) || Closed(cfg, en.sys.reqs[id], For(en.log, id)))
            && SoloIfOk(d, cfg, en.sys.reqs[id], For(en.log, id)))
      && (en.alive ==> forall id :: id in en.emitters <==> id in en.sys.waiting || id in en.sys.running)
      && (!en.alive ==> forall id :: id in en.sys.reqs ==> Closed(cfg, en.sys.reqs[id], For(en.log, id)))
      && (forall i :: 0 <= i < |en.inbox| ==> For(en.log, en.inbox[i].id) == [])
  {
    var en0 := Start(d.layers, numBlocks, blockSize, zero);
    StartOk(d, cfg, numBlocks, blockSize, zero);
    hide Start, Run, For, Closed, SoloIfOk, ExecOk, Greedy, Stops, Tokens, WellFormed, CacheLength;
    var hs' := RunKeeps(d, cfg, en0, [], actions);
    var en := Run(d, cfg, en0, actions);
    forall id | id in en.sys.reqs
      ensures For(en.log, id) == Tokens(id, en.sys.reqs[id].gen) || Closed(cfg, en.sys.reqs[id], For(en.log, id))
      ensures SoloIfOk(d, cfg, en.sys.reqs[id], For(en.log, id))
    {
      var r := en.sys.reqs[id];
      if en.alive && id !in en.sys.finished {
        OpenIsOpen(d, cfg, r, For(en.log, id));
      } else {
        ClosedIsSolo(d, cfg, r, For(en.log, id));
      }
    }
  }

  lemma OpenIsOpen(d: Decoder, cfg: Config, r: Request, events: seq<Event>)
    requires events == Tokens(r.id, r.gen)
    ensures SoloIfOk(d, cfg, r, events)
  {
    hide Solo, PromptInputs;
    if events != [] {
      assert events[|events| - 1].TokenEvent?;
    }
  }

  /** How many tokens a stream that closed without an error delivered: at least one, and within the
      request's limit exactly when that limit is not zero. */
  lemma StreamLength(d: Decoder, cfg: Config, numBlocks: nat, blockSize: nat, zero: KV, actions: seq<Action>)
    requires d.layers > 0 && blockSize > 0
    requires Permitted(d, cfg, Start(d.layers, numBlocks, blockSize, zero), actions)
    ensures var en := Run(d, cfg, Start(d.layers, numBlocks, blockSize, zero), actions);
      forall id, stopped :: id in en.sys.reqs && EndsWith(For(en.log, id), DoneEvent(en.sys.reqs[id].id, false, stopped)) ==>
        var tokens, maxNew := |For(en.log, id)| - 1, en.sys.reqs[id].maxNew;
        && 1 <= tokens <= Max(1, maxNew)
        && (tokens <= maxNew <==> maxNew > 0)
  {
    hide Start, Run, For, Closed, Solo, Tokens;
    ServingRefinesSolo(d, cfg, numBlocks, blockSize, zero, actions);
    var en := Run(d, cfg, Start(d.layers, numBlocks, blockSize, zero), actions);
    forall id, stopped | id in en.sys.reqs && EndsWith(For(en.log, id), DoneEvent(en.sys.reqs[id].id, false, stopped))
      ensures var tokens, maxNew := |For(en.log, id)| - 1, en.sys.reqs[id].maxNew;
        1 <= tokens <= Max(1, maxNew) && (tokens <= maxNew <==> maxNew > 0)
    {
      var r := en.sys.reqs[id];
      SoloLength(d, PromptInputs(d, r), r.maxNew, cfg.eos);
    }
  }

  predicate EndsWith(events: seq<Event>, last: Event) {
    events != [] && events[|events| - 1] == last
  }

  /** A request submitted just before the worker exits is never drained and gets no event. */
  lemma SubmittedTooLate(d: Decoder, cfg: Config, numBlocks: nat, blockSize: nat, zero: KV, r: Request)
    requires d.layers > 0 && blockSize > 0 && WaitOk(r)
    ensures var en0, actions := Start(d.layers, numBlocks, blockSize, zero), [Submit(r), Exit];
      && Permitted(d, cfg, en0, actions)
      && var en := Run(d, cfg, en0, actions);
      && !en.alive && en.inbox == [r] && en.log == []
  {
    hide WaitOk;
    var en0 := Start(d.layers, numBlocks, blockSize, zero);
    assert [Submit(r), Exit][1..] == [Exit] && [Exit][1..] == [];
    var en1 := Act(d, cfg, en0, Submit(r));
    var en := Act(d, cfg, en1, Exit);
    assert [] + [r] == [r] && [] + CloseEvents([]) == [];
    assert Run(d, cfg, en1, [Exit]) == Run(d, cfg, en, []) == en;
    assert Permitted(d, cfg, en1, [Exit]);
  }
}
