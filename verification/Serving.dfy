/** The executor and the engine's worker loop as functions on values
    (edgerag/serve/executor.py, edgerag/serve/engine.py). */
module Serving {
  import opened Common
  import opened Tensors
  import opened Decoders
  import opened Requests
  import opened Scheduling
  import opened Paging
  import opened Arenas
  import P = Pools

  // ------------------------------------------------------------------------------ the executor

  /** What one executed batch reports: prompt tokens consumed, and tokens produced, by request. */
  datatype Output = Output(prefilled: map<Id, nat>, tokens: map<Id, Token>)

  /** The executor's state while it works through a batch. `fuel` is how many more
      pieces of a forward the device will run before it raises: each layer is one, and what follows the
      last layer, up to the token, is one. So a fault can strike before the first cache update, between
      any two, and after the last; a large number models none. */
  datatype Exec = Exec(reqs: map<Id, Request>, arena: Arena, out: Output, fuel: nat, error: Option<Error>)

  datatype Passed = Passed(arena: Arena, hidden: seq<Hidden>, fuel: nat, error: Option<Error>)

  /** The decoder's loop over layers on a paged cache: project, `cache.update`, attend. */
  function PagedForward(d: Decoder, a: Arena, c: nat, past: nat, hs: seq<Hidden>, l: nat, fuel: nat): Passed
    requires l <= d.layers
    decreases d.layers - l
  {
    if fuel == 0 then Passed(a, hs, fuel, Some(RuntimeFault))
    else if l == d.layers then Passed(a, hs, fuel - 1, None)
    else
      var u := Call(a, Update(c, l, ChunkKV(d, l, past, hs)));
      match u.result
      case Err(e) => Passed(u.arena, hs, fuel, Some(e))
      case Ok(history) => PagedForward(d, u.arena, c, past, ChunkAttend(d, l, past, hs, history), l + 1, fuel - 1)
  }

  function CacheFor(e: Exec, id: Id): Exec {
    var r := At(e.reqs, id);
    if r.cache.Some? then e
    else e.(arena := Call(e.arena, New(0)).arena, reqs := e.reqs[id := r.(cache := Some(|e.arena.caches|))])
  }

  /** Grow the cache for `hs` and run them; the reported hidden states are the last layer's. */
  function Feed(d: Decoder, a: Arena, c: nat, hs: seq<Hidden>, fuel: nat): Passed {
    var past := TokensIn(a, c);
    var grown := Call(a, Ensure(c, past + |hs|));
    match grown.result
    case Err(e) => Passed(grown.arena, hs, fuel, Some(e))
    case Ok(_) => PagedForward(d, grown.arena, c, past, hs, 0, fuel)
  }

  function Slice(hs: seq<Hidden>, start: nat, end: nat): seq<Hidden> {
    if start <= end <= |hs| then hs[start..end] else []
  }

  function ExecPrefill(d: Decoder, chunk: nat, e: Exec, id: Id): Exec {
    if e.error.Some? then e
    else
      var e1 := CacheFor(e, id);
      var r := At(e1.reqs, id);
      var end := Min(r.offset + chunk, |r.prompt|);
      var n := end - r.offset;
      if n <= 0 || r.cache.None? then e1
      else
        var f := Feed(d, e1.arena, r.cache.value, Slice(PromptInputs(d, r), r.offset, end), e1.fuel);
        if f.error.Some? then e1.(arena := f.arena, fuel := f.fuel, error := f.error)
        else
          var out := e1.out.(prefilled := e1.out.prefilled[id := n]);
          var out' := if end >= |r.prompt| && f.hidden != [] then out.(tokens := out.tokens[id := d.pick(Last(f.hidden))]) else out;
          e1.(arena := f.arena, fuel := f.fuel, out := out')
  }

  function ExecDecode(d: Decoder, e: Exec, id: Id): Exec {
    if e.error.Some? then e
    else
      var e1 := CacheFor(e, id);
      var r := At(e1.reqs, id);
      if r.gen == [] || r.cache.None? then e1.(error := Some(NoToken))
      else
        var f := Feed(d, e1.arena, r.cache.value, [d.embed(r.gen[|r.gen| - 1])], e1.fuel);
        if f.error.Some? || f.hidden == [] then e1.(arena := f.arena, fuel := f.fuel, error := if f.error.Some? then f.error else Some(RuntimeFault))
        else e1.(arena := f.arena, fuel := f.fuel, out := e1.out.(tokens := e1.out.tokens[id := d.pick(Last(f.hidden))]))
  }

  function ExecPrefills(d: Decoder, chunk: nat, e: Exec, ids: seq<Id>): Exec
    decreases |ids|
  {
    if ids == [] then e else ExecPrefills(d, chunk, ExecPrefill(d, chunk, e, ids[0]), ids[1..])
  }

  function ExecDecodes(d: Decoder, e: Exec, ids: seq<Id>): Exec
    decreases |ids|
  {
    if ids == [] then e else ExecDecodes(d, ExecDecode(d, e, ids[0]), ids[1..])
  }

  /** `ModelExecutor.execute`: prefills one at a time, then decodes one at a time. */
  function Execute(d: Decoder, cfg: Config, sys: Sys, b: Batch, fuel: nat): Exec {
    var e := Exec(sys.reqs, sys.arena, Output(map[], map[]), fuel, None);
    ExecDecodes(d, ExecPrefills(d, cfg.chunk, e, b.prefill), b.decode)
  }

  // ------------------------------------------------------------------------------- the engine

  datatype Event =
    | TokenEvent(id: Id, token: Token)
    | DoneEvent(id: Id, error: bool, stopped: bool)

  /** `log` is everything delivered to any stream, in order; `emitters` the keys of the dictionary of
      open streams, in insertion order. */
  datatype Engine = Engine(sys: Sys, inbox: seq<Request>, emitters: seq<Id>, log: seq<Event>, alive: bool)

  function Emit(en: Engine, ev: Event): Engine {
    if ev.id in en.emitters then en.(log := en.log + [ev]) else en
  }

  function Close(en: Engine, ev: Event): Engine {
    var en' := Emit(en, ev);
    en'.(emitters := Remove(en'.emitters, ev.id))
  }

  predicate HitEos(r: Request, eos: Option<Token>) {
    eos.Some? && r.gen != [] && r.gen[|r.gen| - 1] == eos.value
  }

  /** `_fail`: the request died in the executor, so this finishes it. */
  function FailOne(en: Engine, id: Id): Engine {
    var sys := if IsTerminal(At(en.sys.reqs, id)) then en.sys else Finish(en.sys, id);
    Close(en.(sys := sys), DoneEvent(id, true, false))
  }

  function FailAll(en: Engine, ids: seq<Id>): Engine
    decreases |ids|
  {
    if ids == [] then en else FailAll(FailOne(en, ids[0]), ids[1..])
  }

  /** The first half of a turn of the loop in `_step`: prompt tokens consumed. */
  function ApplyProgress(en: Engine, out: Output, id: Id): Engine {
    if id in out.prefilled && out.prefilled[id] > 0 then
      match OnPrefillChunk(en.sys, id, out.prefilled[id])
      case Ok(sys) => en.(sys := sys)
      case Err(_) => en
    else en
  }

  /** The second half: the token produced, if any, and the closing event if it was the last. */
  function ApplyToken(cfg: Config, en: Engine, out: Output, id: Id): Engine {
    if id !in out.tokens then en
    else
      var sys := OnToken(cfg, en.sys, id, out.tokens[id]);
      var en2 := Emit(en.(sys := sys), TokenEvent(id, out.tokens[id]));
      var r := At(sys.reqs, id);
      if IsTerminal(r) then Close(en2, DoneEvent(id, false, HitEos(r, cfg.eos))) else en2
  }

  function ApplyOne(cfg: Config, en: Engine, out: Output, id: Id): Engine {
    ApplyToken(cfg, ApplyProgress(en, out, id), out, id)
  }

  function ApplyAll(cfg: Config, en: Engine, out: Output, ids: seq<Id>): Engine
    decreases |ids|
  {
    if ids == [] then en else ApplyAll(cfg, ApplyOne(cfg, en, out, ids[0]), out, ids[1..])
  }

  /** What the executor raises in the step the engine would take now. */
  function StepError(d: Decoder, cfg: Config, en: Engine, fuel: nat): Option<Error> {
    var (sys, b) := Schedule(cfg, en.sys);
    if b.prefill == [] && b.decode == [] then None else Execute(d, cfg, sys, b, fuel).error
  }

  /** `_step`: schedule, execute, and either apply what came back or fail the whole batch. */
  function Step(d: Decoder, cfg: Config, en: Engine, fuel: nat): Engine {
    var (sys, b) := Schedule(cfg, en.sys);
    if b.prefill == [] && b.decode == [] then en.(sys := sys)
    else
      var e := Execute(d, cfg, sys, b, fuel);
      var en1 := en.(sys := sys.(reqs := e.reqs, arena := e.arena));
      if e.error.Some? then FailAll(en1, b.prefill + b.decode)
      else ApplyAll(cfg, en1, e.out, b.prefill + b.decode)
  }

  /** `_drain_inbox`. */
  function Drain(en: Engine): Engine
    decreases |en.inbox|
  {
    if en.inbox == [] then en
    else
      var r := en.inbox[0];
      Drain(en.(inbox := en.inbox[1..], emitters := if r.id in en.emitters then en.emitters else en.emitters + [r.id], sys := AddRequest(en.sys, r)))
  }

  function CloseEvents(ids: seq<Id>): (r: seq<Event>)
    ensures |r| == |ids|
    ensures forall i :: 0 <= i < |ids| ==> r[i] == DoneEvent(ids[i], true, false)
  {
    seq(|ids|, i requires 0 <= i < |ids| => DoneEvent(ids[i], true, false))
  }

  predicate HasWork(sys: Sys) {
    sys.waiting != [] || sys.running != []
  }
}
