/** The engine object and its worker loop (edgerag/serve/engine.py): every method is one of the atomic
    steps of EngineRuns.dfy, and a run of the loop is a run of that machine. */
module Engines {
  import opened Common
  import opened Tensors
  import opened Decoders
  import opened Arenas
  import opened Requests
  import opened Scheduling
  import opened Serving
  import opened EngineRuns
  import opened Servers

  /** What happens around one turn of the worker loop: submissions arriving before it, whether the stop
      flag is up when it is read, and how far the device gets. */
  datatype Turn = Turn(arrivals: seq<Request>, stop: bool, fuel: nat)

  function Submits(rs: seq<Request>): (a: seq<Action>)
    ensures |a| == |rs| && forall i :: 0 <= i < |rs| ==> a[i] == Submit(rs[i])
  {
    seq(|rs|, i requires 0 <= i < |rs| => Submit(rs[i]))
  }

  /** The steps the turns amount to; the worker leaves at the stop flag, or when the turns are over. */
  function ActionsOf(turns: seq<Turn>): seq<Action>
    decreases |turns|
  {
    if turns == [] then [Exit]
    else Submits(turns[0].arrivals) + if turns[0].stop then [Exit] else [DrainInbox, Iterate(turns[0].fuel)] + ActionsOf(turns[1..])
  }

  lemma {:induction false} RunJoin(d: Decoder, cfg: Config, en: Engine, a: seq<Action>, b: seq<Action>)
    ensures Run(d, cfg, en, a + b) == Run(d, cfg, Run(d, cfg, en, a), b)
    decreases |a|
  {
    hide Act;
    if a == [] {
      assert a + b == b;
    } else {
      assert (a + b)[0] == a[0] && (a + b)[1..] == a[1..] + b;
      RunJoin(d, cfg, Act(d, cfg, en, a[0]), a[1..], b);
    }
  }

  lemma {:induction false} RunSubmits(d: Decoder, cfg: Config, en: Engine, rs: seq<Request>)
    requires en.alive
    ensures Run(d, cfg, en, Submits(rs)) == en.(inbox := en.inbox + rs)
    decreases |rs|
  {
    if rs == [] {
      assert en.inbox + rs == en.inbox;
    } else {
      var en1 := Act(d, cfg, en, Submit(rs[0]));
      assert Submits(rs)[1..] == Submits(rs[1..]);
      RunSubmits(d, cfg, en1, rs[1..]);
      assert en.inbox + rs == en.inbox + [rs[0]] + rs[1..];
    }
  }

  class InferenceEngine {
    const scheduler: Scheduler
    const executor: ModelExecutor
    var inbox: seq<Request>
    var emitters: seq<Id>
    var log: seq<Event>
    var alive: bool

    predicate Valid() {
      executor.heap == scheduler.heap && executor.chunk == scheduler.cfg.chunk
    }

    function View(): Engine
      reads this, scheduler, scheduler.heap
    {
      Engine(scheduler.View(), inbox, emitters, log, alive)
    }

    constructor (scheduler: Scheduler, executor: ModelExecutor)
      requires executor.heap == scheduler.heap && executor.chunk == scheduler.cfg.chunk
      ensures Valid() && this.scheduler == scheduler && this.executor == executor
      ensures inbox == [] && emitters == [] && log == [] && alive
    {
      this.scheduler, this.executor := scheduler, executor;
      inbox, emitters, log, alive := [], [], [], true;
    }

    /** Refused when the worker is not running. */
    method Submit(r: Request) returns (accepted: Result<()>)
      requires Valid()
      modifies this
      ensures accepted.Ok? <==> old(alive)
      ensures View() == Act(executor.d, scheduler.cfg, old(View()), EngineRuns.Submit(r))
    {
      if !alive {
        return Err(RuntimeFault);
      }
      inbox := inbox + [r];
      return Ok(());
    }

    method DrainInbox()
      requires Valid()
      modifies this, scheduler, scheduler.heap
      ensures View() == Drain(old(View()))
    {
      hide AddRequest;
      while inbox != []
        invariant Drain(View()) == Drain(old(View()))
        decreases |inbox|
      {
        var r := inbox[0];
        inbox := inbox[1..];
        if r.id !in emitters {
          emitters := emitters + [r.id];
        }
        scheduler.AddRequest(r);
      }
    }

    method Emit(ev: Event)
      requires Valid()
      modifies this`log
      ensures View() == Serving.Emit(old(View()), ev)
    {
      if ev.id in emitters {
        log := log + [ev];
      }
    }

    /** The closing event, after which the stream is forgotten. */
    method Close(ev: Event)
      requires Valid()
      modifies this`log, this`emitters
      ensures View() == Serving.Close(old(View()), ev)
    {
      Emit(ev);
      emitters := Remove(emitters, ev.id);
    }

    /** `_fail`. */
    method Fail(id: Id)
      requires Valid()
      modifies this, scheduler, scheduler.heap
      ensures View() == FailOne(old(View()), id)
    {
      hide Finish, Serving.Close;
      if !IsTerminal(At(scheduler.heap.reqs, id)) {
        scheduler.Finish(id);
      }
      Close(DoneEvent(id, true, false));
    }

    /** One request's share of a step's output. */
    method Apply(id: Id, out: Output)
      requires Valid()
      modifies this, scheduler, scheduler.heap
      ensures View() == ApplyOne(scheduler.cfg, old(View()), out, id)
    {
      hide OnToken, OnPrefillChunk, Serving.Close, Serving.Emit, HitEos;
      if id in out.prefilled && out.prefilled[id] > 0 {
        var progressed := scheduler.OnPrefillChunk(id, out.prefilled[id]);
      }
      if id !in out.tokens {
        return;
      }
      scheduler.OnToken(id, out.tokens[id]);
      Emit(TokenEvent(id, out.tokens[id]));
      var r := At(scheduler.heap.reqs, id);
      if IsTerminal(r) {
        Close(DoneEvent(id, false, HitEos(r, scheduler.cfg.eos)));
      }
    }

    /** `_step`: schedule, execute, and then either fail the whole batch or apply what came back. */
    method StepOnce(fuel: nat)
      requires Valid()
      modifies this, scheduler, scheduler.heap
      ensures View() == Step(executor.d, scheduler.cfg, old(View()), fuel)
    {
      hide Schedule, FailOne, ApplyOne, ExecPrefills, ExecDecodes;
      var b := scheduler.Schedule();
      if b.prefill == [] && b.decode == [] {
        return;
      }
      ghost var sys := scheduler.View();
      var e := executor.Execute(b, fuel);
      assert e == Execute(executor.d, scheduler.cfg, sys, b, fuel);
      var ids := b.prefill + b.decode;
      ghost var en1 := View();
      assert en1 == old(View()).(sys := sys.(reqs := e.reqs, arena := e.arena));
      assert ids[0..] == ids;
      var i := 0;
      if e.error.Some? {
        while i < |ids|
          invariant 0 <= i <= |ids|
          invariant FailAll(View(), ids[i..]) == FailAll(en1, ids)
        {
          assert ids[i..][0] == ids[i] && ids[i..][1..] == ids[i + 1..];
          Fail(ids[i]);
          i := i + 1;
        }
        return;
      }
      while i < |ids|
        invariant 0 <= i <= |ids|
        invariant ApplyAll(scheduler.cfg, View(), e.out, ids[i..]) == ApplyAll(scheduler.cfg, en1, e.out, ids)
      {
        assert ids[i..][0] == ids[i] && ids[i..][1..] == ids[i + 1..];
        Apply(ids[i], e.out);
        i := i + 1;
      }
    }

    /** `_fail_everything_still_open`. */
    method FailEverythingStillOpen()
      requires Valid()
      modifies this
      ensures old(alive) ==> View() == Act(executor.d, scheduler.cfg, old(View()), Exit)
    {
      ghost var events := CloseEvents(emitters);
      var i := 0;
      while i < |emitters|
        invariant 0 <= i <= |emitters| && emitters == old(emitters) && inbox == old(inbox)
        invariant log == old(log) + events[..i]
      {
        log := log + [DoneEvent(emitters[i], true, false)];
        assert events[..i + 1] == events[..i] + [events[i]];
        i := i + 1;
      }
      assert events[..i] == events;
      emitters := [];
      alive := false;
    }

    /** `_run`: drain, then step if there is work, until the stop flag; then close what is open. */
    method WorkerLoop(turns: seq<Turn>)
      requires Valid() && alive
      modifies this, scheduler, scheduler.heap
      ensures View() == Run(executor.d, scheduler.cfg, old(View()), ActionsOf(turns))
    {
      hide Step, Drain, Submits, HasWork;
      ghost var d, cfg := executor.d, scheduler.cfg;
      assert turns[0..] == turns;
      var i := 0;
      while i < |turns|
        invariant 0 <= i <= |turns| && alive
        invariant Run(d, cfg, View(), ActionsOf(turns[i..])) == Run(d, cfg, old(View()), ActionsOf(turns))
      {
        ghost var en := View();
        var turn := turns[i];
        assert turns[i..][0] == turn && turns[i..][1..] == turns[i + 1..];
        inbox := inbox + turn.arrivals;
        RunSubmits(d, cfg, en, turn.arrivals);
        ghost var rest := if turn.stop then [Exit] else [Action.DrainInbox, Iterate(turn.fuel)] + ActionsOf(turns[i + 1..]);
        RunJoin(d, cfg, en, Submits(turn.arrivals), rest);
        if turn.stop {
          ExitOnly(d, cfg, View());
          FailEverythingStillOpen();
          return;
        }
        TurnIs(d, cfg, View(), turn.fuel, ActionsOf(turns[i + 1..]));
        StaysAlive(d, cfg, View(), turn.fuel);
        DrainInbox();
        if HasWork(scheduler.View()) {
          StepOnce(turn.fuel);
        }
        i := i + 1;
      }
      ExitOnly(d, cfg, View());
      FailEverythingStillOpen();
    }
  }

  lemma ExitOnly(d: Decoder, cfg: Config, en: Engine)
    ensures Run(d, cfg, en, [Exit]) == Act(d, cfg, en, Exit)
  {
    assert [Exit][1..] == [];
  }

  lemma TurnIs(d: Decoder, cfg: Config, en: Engine, fuel: nat, rest: seq<Action>)
    ensures Run(d, cfg, en, [DrainInbox, Iterate(fuel)] + rest) == Run(d, cfg, Act(d, cfg, Act(d, cfg, en, DrainInbox), Iterate(fuel)), rest)
  {
    hide Act;
    var all := [DrainInbox, Iterate(fuel)] + rest;
    assert all[1..][1..] == rest && all[1..][0] == Iterate(fuel);
  }

  lemma {:induction false} DrainAlive(en: Engine)
    ensures Drain(en).alive == en.alive
    decreases |en.inbox|
  {
    if en.inbox != [] {
      var r := en.inbox[0];
      DrainAlive(en.(inbox := en.inbox[1..], emitters := if r.id in en.emitters then en.emitters else en.emitters + [r.id], sys := AddRequest(en.sys, r)));
    }
  }

  lemma {:induction false} FailAllAlive(en: Engine, ids: seq<Id>)
    ensures FailAll(en, ids).alive == en.alive
    decreases |ids|
  {
    if ids != [] {
      FailAllAlive(FailOne(en, ids[0]), ids[1..]);
    }
  }

  lemma {:induction false} ApplyAllAlive(cfg: Config, en: Engine, out: Output, ids: seq<Id>)
    ensures ApplyAll(cfg, en, out, ids).alive == en.alive
    decreases |ids|
  {
    hide OnToken, OnPrefillChunk;
    if ids != [] {
      ApplyAllAlive(cfg, ApplyOne(cfg, en, out, ids[0]), out, ids[1..]);
    }
  }

  /** No turn of the loop ends the worker. */
  lemma StaysAlive(d: Decoder, cfg: Config, en: Engine, fuel: nat)
    requires en.alive
    ensures Drain(en).alive && Act(d, cfg, en, DrainInbox) == Drain(en)
    ensures Step(d, cfg, Drain(en), fuel).alive
  {
    hide Schedule, Execute, FailAll, ApplyAll, Drain;
    DrainAlive(en);
    var (sys, b) := Schedule(cfg, Drain(en).sys);
    var e := Execute(d, cfg, sys, b, fuel);
    var en1 := Drain(en).(sys := sys.(reqs := e.reqs, arena := e.arena));
    FailAllAlive(en1, b.prefill + b.decode);
    ApplyAllAlive(cfg, en1, e.out, b.prefill + b.decode);
  }
}
