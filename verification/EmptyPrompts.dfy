/** What becomes of a request with an empty prompt: once admitted it is scheduled in every step and
    never advances, so its stream stays open and empty and its slot is lost. */
module EmptyPrompts {
  import opened Common
  import opened Tensors
  import opened Decoders
  import opened Arenas
  import opened Requests
  import opened Scheduling
  import opened Serving
  import opened EngineProofs
  import opened EngineRuns
  import opened LivenessProofs
  import X = ExecutionProofs

  /** Running, with nothing to prefill and nothing generated. */
  ghost predicate Idle(sys: Sys, id: Id) {
    && id in sys.running && id !in sys.waiting && id in sys.reqs
    && Hollow(sys.reqs[id])
  }

  ghost predicate Hollow(r: Request) {
    r.prompt == [] && r.state == Prefilling && r.offset == 0 && r.gen == []
  }

  /** The request is as it was, but for a cache it may have been given, and nothing was said of it. */
  ghost predicate Untouched(en: Engine, en': Engine, id: Id) {
    && Idle(en.sys, id) && Idle(en'.sys, id)
    && en'.sys.reqs[id] == en.sys.reqs[id].(cache := en'.sys.reqs[id].cache)
    && For(en'.log, id) == For(en.log, id) && (id in en'.emitters <==> id in en.emitters)
  }

  lemma UntouchedTrans(a: Engine, b: Engine, c: Engine, id: Id)
    requires Untouched(a, b, id) && Untouched(b, c, id)
    ensures Untouched(a, c, id)
  {
    hide For;
  }

  // ------------------------------------------------------------------------------- one step

  lemma {:induction false} AdmitLeaves(cfg: Config, sys: Sys, b: Batch, id: Id)
    requires Idle(sys, id)
    ensures var sys' := Admit(cfg, sys, b).0; Idle(sys', id) && sys'.reqs[id] == sys.reqs[id]
    decreases |sys.waiting|
  {
    hide Needed, Available;
    if sys.waiting != [] {
      var w := sys.waiting[0];
      assert w in sys.waiting && forall x :: x in sys.waiting[1..] ==> x in sys.waiting;
      AdmitLeaves(cfg,
        sys.(waiting := sys.waiting[1..], reqs := sys.reqs[w := At(sys.reqs, w).(state := Prefilling)], running := sys.running + [w]),
        b.(prefill := b.prefill + [w]), id);
    }
  }

  ghost predicate Unreported(e: Exec, id: Id) {
    id in e.reqs && Hollow(e.reqs[id]) && id !in e.out.prefilled && id !in e.out.tokens
  }

  /** A turn of the prefill loop consumes nothing of it, and its own turn does nothing but give it a
      cache: it cannot fail. */
  lemma PrefillLeaves(d: Decoder, chunk: nat, e: Exec, j: Id, id: Id)
    requires Unreported(e, id)
    ensures var e' := ExecPrefill(d, chunk, e, j);
      && Unreported(e', id) && e'.reqs[id] == e.reqs[id].(cache := e'.reqs[id].cache)
      && (j == id ==> e'.error == e.error && e'.out == e.out)
  {
    hide Feed, Call, PromptInputs;
  }

  lemma DecodeLeaves(d: Decoder, e: Exec, j: Id, id: Id)
    requires Unreported(e, id) && e.error.None? && ExecDecode(d, e, j).error.None?
    ensures var e' := ExecDecode(d, e, j);
      Unreported(e', id) && e'.reqs[id] == e.reqs[id].(cache := e'.reqs[id].cache)
  {
    hide Feed, Call;
  }

  lemma {:induction false} PrefillsLeave(d: Decoder, chunk: nat, e: Exec, ids: seq<Id>, id: Id)
    requires Unreported(e, id)
    ensures var e' := ExecPrefills(d, chunk, e, ids);
      Unreported(e', id) && e'.reqs[id] == e.reqs[id].(cache := e'.reqs[id].cache)
    decreases |ids|
  {
    hide ExecPrefill;
    if ids != [] {
      PrefillLeaves(d, chunk, e, ids[0], id);
      PrefillsLeave(d, chunk, ExecPrefill(d, chunk, e, ids[0]), ids[1..], id);
    }
  }

  lemma {:induction false} DecodesLeave(d: Decoder, e: Exec, ids: seq<Id>, id: Id)
    requires Unreported(e, id) && ExecDecodes(d, e, ids).error.None?
    ensures var e' := ExecDecodes(d, e, ids);
      Unreported(e', id) && e'.reqs[id] == e.reqs[id].(cache := e'.reqs[id].cache)
    decreases |ids|
  {
    hide ExecDecode;
    if e.error.Some? {
      X.StuckDecodesOk(d, 0, e, ids);
    } else if ids != [] {
      var e1 := ExecDecode(d, e, ids[0]);
      if e1.error.Some? {
        X.StuckDecodesOk(d, 0, e1, ids[1..]);
      } else {
        DecodeLeaves(d, e, ids[0], id);
        DecodesLeave(d, e1, ids[1..], id);
      }
    }
  }

  lemma {:induction false} RemoveKeeps(ids: seq<Id>, gone: Id, id: Id)
    requires gone != id
    ensures id in Remove(ids, gone) <==> id in ids
  {
    if ids != [] {
      assert ids == [ids[0]] + ids[1..];
      RemoveKeeps(ids[1..], gone, id);
    }
  }

  lemma ApplyOneLeaves(cfg: Config, en: Engine, out: Output, j: Id, id: Id)
    requires Idle(en.sys, id) && id !in out.prefilled && id !in out.tokens
    ensures Untouched(en, ApplyOne(cfg, en, out, j), id)
  {
    if j != id {
      hide ApplyProgress, ApplyToken, For;
      var en1 := ApplyProgress(en, out, j);
      ProgressLeaves(en, out, j, id);
      TokenLeaves(cfg, en1, out, j, id);
      UntouchedTrans(en, en1, ApplyToken(cfg, en1, out, j), id);
    }
  }

  lemma ProgressLeaves(en: Engine, out: Output, j: Id, id: Id)
    requires Idle(en.sys, id) && j != id
    ensures Untouched(en, ApplyProgress(en, out, j), id)
  {
    hide For;
  }

  lemma TokenLeaves(cfg: Config, en: Engine, out: Output, j: Id, id: Id)
    requires Idle(en.sys, id) && j != id
    ensures Untouched(en, ApplyToken(cfg, en, out, j), id)
  {
    hide Release, Remove, For, Stops;
    RemoveKeeps(en.sys.running, j, id);
    RemoveKeeps(en.emitters, j, id);
    if j in out.tokens {
      var t := TokenEvent(j, out.tokens[j]);
      ForPush(en.log, t, id);
      forall stopped ensures For(en.log + [t] + [DoneEvent(j, false, stopped)], id) == For(en.log + [t], id) {
        ForPush(en.log + [t], DoneEvent(j, false, stopped), id);
      }
    }
  }

  lemma {:induction false} ApplyAllLeaves(cfg: Config, en: Engine, out: Output, ids: seq<Id>, id: Id)
    requires Idle(en.sys, id) && id !in out.prefilled && id !in out.tokens
    ensures Untouched(en, ApplyAll(cfg, en, out, ids), id)
    decreases |ids|
  {
    hide ApplyOne, For;
    if ids != [] {
      ApplyOneLeaves(cfg, en, out, ids[0], id);
      var en1 := ApplyOne(cfg, en, out, ids[0]);
      ApplyAllLeaves(cfg, en1, out, ids[1..], id);
      UntouchedTrans(en, en1, ApplyAll(cfg, en1, out, ids[1..]), id);
    }
  }

  lemma StepLeaves(d: Decoder, cfg: Config, en: Engine, id: Id, fuel: nat)
    requires Idle(en.sys, id) && StepError(d, cfg, en, fuel).None?
    ensures Untouched(en, Step(d, cfg, en, fuel), id)
  {
    hide Admit, ExecPrefills, ExecDecodes, ApplyAll, FailAll, For;
    AdmitLeaves(cfg, en.sys, Pick(cfg, en.sys.reqs, en.sys.running, Batch([], [])), id);
    var (sys, b) := Schedule(cfg, en.sys);
    var e0 := Exec(sys.reqs, sys.arena, Output(map[], map[]), fuel, None);
    PrefillsLeave(d, cfg.chunk, e0, b.prefill, id);
    if b.prefill != [] || b.decode != [] {
      DecodesLeave(d, ExecPrefills(d, cfg.chunk, e0, b.prefill), b.decode, id);
      var e := Execute(d, cfg, sys, b, fuel);
      ApplyAllLeaves(cfg, en.(sys := sys.(reqs := e.reqs, arena := e.arena)), e.out, b.prefill + b.decode, id);
    }
  }

  // ---------------------------------------------------------------------------------- for good

  /** The executor raises nothing in any of these iterations. */
  ghost predicate Quiet(d: Decoder, cfg: Config, en: Engine, fuels: seq<nat>)
    decreases |fuels|
  {
    fuels == [] || !HasWork(en.sys) ||
    (StepError(d, cfg, en, fuels[0]).None? && Quiet(d, cfg, Step(d, cfg, en, fuels[0]), fuels[1..]))
  }

  /** However many iterations run without an error, whoever else is served meanwhile: the request keeps
      running where it was and its stream gets no event. */
  lemma {:induction false} NeverAdvances(d: Decoder, cfg: Config, en: Engine, id: Id, fuels: seq<nat>)
    requires Idle(en.sys, id) && Quiet(d, cfg, en, fuels)
    ensures Untouched(en, Iterations(d, cfg, en, fuels), id)
    decreases |fuels|
  {
    hide Step, StepError, For;
    if fuels != [] {
      StepLeaves(d, cfg, en, id, fuels[0]);
      var en1 := Step(d, cfg, en, fuels[0]);
      NeverAdvances(d, cfg, en1, id, fuels[1..]);
      UntouchedTrans(en, en1, Iterations(d, cfg, en1, fuels[1..]), id);
    }
  }

  /** Alone, it takes the one prefill of every step, so whatever waits behind it waits. */
  ghost predicate Jammed(cfg: Config, sys: Sys, id: Id) {
    Idle(sys, id) && sys.running == [id] && cfg.maxPrefills > 0 && (sys.waiting == [] || cfg.maxPrefills == 1)
  }

  lemma JammedBatch(cfg: Config, sys: Sys, id: Id)
    requires Jammed(cfg, sys, id)
    ensures Schedule(cfg, sys) == (sys, Batch([id], []))
  {
    assert sys.running[1..] == [];
    assert [] + [id] == [id];
    assert Pick(cfg, sys.reqs, [id], Batch([], [])) == Pick(cfg, sys.reqs, [], Batch([id], [])) == Batch([id], []);
  }

  /** Its step runs nothing on the device. */
  lemma AloneRuns(d: Decoder, cfg: Config, en: Engine, id: Id, fuel: nat)
    requires Idle(en.sys, id)
    ensures var e := Execute(d, cfg, en.sys, Batch([id], []), fuel);
      var en1 := en.(sys := en.sys.(reqs := e.reqs, arena := e.arena));
      e.error.None? && ApplyAll(cfg, en1, e.out, [id] + []) == en1 && Idle(en1.sys, id)
  {
    hide Feed, Call, PromptInputs;
    var sys := en.sys;
    var e0 := Exec(sys.reqs, sys.arena, Output(map[], map[]), fuel, None);
    PrefillLeaves(d, cfg.chunk, e0, id, id);
    assert [id][1..] == [] && [id] + [] == [id];
    var e := ExecPrefill(d, cfg.chunk, e0, id);
    assert ExecPrefills(d, cfg.chunk, e0, [id]) == ExecPrefills(d, cfg.chunk, e, []) == e;
    assert ExecDecodes(d, e, []) == e;
    assert Execute(d, cfg, sys, Batch([id], []), fuel) == e;
    var en1 := en.(sys := sys.(reqs := e.reqs, arena := e.arena));
    assert ApplyOne(cfg, en1, e.out, id) == en1;
    assert ApplyAll(cfg, en1, e.out, [id]) == ApplyAll(cfg, en1, e.out, []);
  }

  lemma {:induction false} BlocksForever(d: Decoder, cfg: Config, en: Engine, id: Id, fuels: seq<nat>)
    requires Jammed(cfg, en.sys, id)
    ensures var en' := Iterations(d, cfg, en, fuels);
      && Jammed(cfg, en'.sys, id) && en'.sys.waiting == en.sys.waiting
      && en'.log == en.log && en'.emitters == en.emitters
    decreases |fuels|
  {
    hide Schedule, Execute, ApplyAll;
    if fuels != [] {
      JammedBatch(cfg, en.sys, id);
      AloneRuns(d, cfg, en, id, fuels[0]);
      BlocksForever(d, cfg, Step(d, cfg, en, fuels[0]), id, fuels[1..]);
    }
  }

  /** From an empty server: submit one request with an empty prompt that fits the pool, and after any
      number of iterations, at whatever point the device fails, it is still running with nothing to
      show, its stream open and without an event. */
  lemma EmptyPromptNeverServed(d: Decoder, cfg: Config, layers: nat, numBlocks: nat, blockSize: nat, zero: KV, r: Request, fuels: seq<nat>)
    requires blockSize > 0 && PositiveLimits(cfg) && fuels != []
    requires r.prompt == [] && r.state == Waiting && r.offset == 0 && r.gen == []
    requires CeilDiv(r.maxNew, blockSize) + cfg.reserve <= numBlocks
    ensures var en := Iterations(d, cfg, Drain(Start(layers, numBlocks, blockSize, zero).(inbox := [r])), fuels);
      && Idle(en.sys, r.id) && en.sys.running == [r.id]
      && en.log == [] && en.emitters == [r.id]
  {
    hide Execute, ApplyAll, Pick, CeilDiv;
    var en0 := Start(layers, numBlocks, blockSize, zero).(inbox := [r]);
    var en1 := en0.(inbox := [], emitters := [r.id], sys := AddRequest(en0.sys, r));
    assert en0.inbox[1..] == [] && [] + [r.id] == [r.id] && r.(state := Waiting) == r;
    assert Drain(en0) == Drain(en1) == en1;
    var sys1 := en1.sys.(waiting := [], reqs := en1.sys.reqs[r.id := r.(state := Prefilling)], running := [r.id]);
    Admits(cfg, en1.sys, sys1, r);
    var en1' := en1.(sys := sys1);
    AloneRuns(d, cfg, en1', r.id, fuels[0]);
    var en2 := Step(d, cfg, en1, fuels[0]);
    BlocksForever(d, cfg, en2, r.id, fuels[1..]);
  }

  lemma Admits(cfg: Config, sys: Sys, sys1: Sys, r: Request)
    requires PositiveLimits(cfg) && sys.waiting == [r.id] && sys.running == [] && sys.reqs == map[r.id := r] && r.prompt == []
    requires sys.arena.store.pool.blockSize > 0 && CeilDiv(r.maxNew, sys.arena.store.pool.blockSize) + cfg.reserve <= NumFree(sys)
    requires sys1 == sys.(waiting := [], reqs := sys.reqs[r.id := r.(state := Prefilling)], running := [r.id])
    ensures Schedule(cfg, sys) == (sys1, Batch([r.id], []))
  {
    hide CeilDiv;
    assert [r.id][1..] == [] && [] + [r.id] == [r.id];
    assert Pick(cfg, sys.reqs, [], Batch([], [])) == Batch([], []);
    assert Admit(cfg, sys, Batch([], [])) == Admit(cfg, sys1, Batch([r.id], []));
  }
}
