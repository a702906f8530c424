/** The engine over every interleaving: each stream gets its request's tokens in order and then one
    closing event, and every request that completes was generated exactly as if served alone. */
module EngineProofs {
  import opened Common
  import opened Tensors
  import opened Decoders
  import opened Paging
  import opened Arenas
  import opened ArenaProofs
  import opened Requests
  import opened Scheduling
  import opened Serving
  import opened ForwardProofs
  import opened ExecutionProofs
  import opened LifecycleProofs

  // ---------------------------------------------------------------------- lifecycle coherence

  ghost predicate WaitOk(r: Request) {
    WellFormed(r) && r.state == Waiting && r.offset == 0 && r.gen == [] && r.cache == None
  }

  /** A running request: prefilling with prompt left and nothing generated, or decoding past its
      whole prompt with at least one token and no reason yet to stop. */
  ghost predicate RunOk(d: Decoder, eos: Option<Token>, r: Request) {
    && WellFormed(r) && Greedy(d, PromptInputs(d, r), r.gen)
    && (r.state == Prefilling || r.state == Decoding)
    && (r.state == Prefilling ==> r.gen == [] && r.offset < |r.prompt|)
    && (r.state == Decoding ==>
          r.gen != [] && r.offset == |r.prompt| && forall k :: 0 < k <= |r.gen| ==> !Stops(r.gen[..k], r.maxNew, eos))
  }

  ghost predicate DoneOk(d: Decoder, r: Request) {
    WellFormed(r) && r.state == Finished && r.cache == None && Greedy(d, PromptInputs(d, r), r.gen)
  }

  /** Between steps a prefilling request's cache holds `offset` positions, and a decoding one's its
      prompt and all but the last generated token. */
  ghost predicate CacheLength(d: Decoder, r: Request, a: Arena) {
    && (r.state == Prefilling ==> Held(a, r) == r.offset)
    && (r.state == Decoding ==> r.cache.Some? && Held(a, r) + 1 == |r.prompt| + |r.gen|)
  }

  ghost predicate Lives(d: Decoder, cfg: Config, sys: Sys) {
    && (forall id :: id in sys.waiting && id in sys.reqs ==> WaitOk(sys.reqs[id]))
    && (forall id :: id in sys.running && id in sys.reqs ==> RunOk(d, cfg.eos, sys.reqs[id]))
    && (forall id :: id in sys.finished && id in sys.reqs ==> DoneOk(d, sys.reqs[id]))
  }

  // --------------------------------------------------------------------------------- streams

  ghost function For(log: seq<Event>, id: Id): seq<Event> {
    if log == [] then []
    else For(log[..|log| - 1], id) + if log[|log| - 1].id == id then [log[|log| - 1]] else []
  }

  ghost function Tokens(id: Id, gen: seq<Token>): (r: seq<Event>)
    ensures |r| == |gen|
    ensures forall i :: 0 <= i < |gen| ==> r[i] == TokenEvent(id, gen[i])
  {
    seq(|gen|, i requires 0 <= i < |gen| => TokenEvent(id, gen[i]))
  }

  /** A closed stream: the generated tokens in order, then exactly one closing event; without an
      error, the tokens end where the stop condition first held. */
  ghost predicate Closed(cfg: Config, r: Request, events: seq<Event>) {
    exists error, stopped ::
      && events == Tokens(r.id, r.gen) + [DoneEvent(r.id, error, stopped)]
      && (!error ==> StopsAtEnd(r.gen, r.maxNew, cfg.eos) && stopped == HitEos(r, cfg.eos))
  }

  ghost predicate Streams(cfg: Config, en: Engine) {
    && Distinct(en.emitters)
    && (forall id :: id in en.emitters <==> id in en.sys.waiting || id in en.sys.running)
    && (forall id :: id !in en.sys.reqs ==> For(en.log, id) == [])
    && (forall id :: (id in en.sys.waiting || id in en.sys.running) && id in en.sys.reqs ==>
          For(en.log, id) == Tokens(id, en.sys.reqs[id].gen))
    && (forall id :: id in en.sys.finished && id in en.sys.reqs ==> Closed(cfg, en.sys.reqs[id], For(en.log, id)))
  }

  ghost predicate EngineInv(d: Decoder, cfg: Config, en: Engine, hs: seq<Hist>) {
    && Queues(en.sys) && Lives(d, cfg, en.sys) && Streams(cfg, en)
    && ExecOk(d, en.sys.reqs, en.sys.arena, en.sys.running, hs, {})
    && forall id :: id in en.sys.running && id in en.sys.reqs ==> CacheLength(d, en.sys.reqs[id], en.sys.arena)
  }

  ghost function BadOf(pending: seq<Id>, ok: bool): set<Id> {
    if ok then {} else set id | id in pending
  }

  lemma BadRest(pending: seq<Id>, ok: bool)
    requires Distinct(pending) && pending != []
    ensures BadOf(pending, ok) - {pending[0]} == BadOf(pending[1..], ok)
  {
    RestDistinct(pending);
  }

  /** While the engine works through the batch's requests; `pending` are those still to come. After a
      fault (`!ok`) nothing is known of what their caches hold. */
  ghost predicate Mid(d: Decoder, cfg: Config, en: Engine, hs: seq<Hist>, pending: seq<Id>, out: Output, ok: bool) {
    && Queues(en.sys) && Lives(d, cfg, en.sys) && Streams(cfg, en)
    && Distinct(pending) && (forall id :: id in pending ==> id in en.sys.running)
    && ExecOk(d, en.sys.reqs, en.sys.arena, en.sys.running, hs, BadOf(pending, ok))
    && (forall id :: id in en.sys.running && id !in pending && id in en.sys.reqs ==> CacheLength(d, en.sys.reqs[id], en.sys.arena))
    && (ok ==> forall id :: id in pending && id in en.sys.reqs ==>
          && WellFormed(en.sys.reqs[id]) && (en.sys.reqs[id].state == Decoding ==> en.sys.reqs[id].gen != [])
          && Reported(d, cfg.chunk, en.sys.reqs[id], en.sys.reqs[id], en.sys.arena, out))
  }

  // ---------------------------------------------------------------- two kinds of transition

  function Set(en: Engine, r: Request): Engine {
    en.(sys := en.sys.(reqs := en.sys.reqs[r.id := r]))
  }

  function Progressed(en: Engine, r: Request, events: seq<Event>): Engine {
    Set(en, r).(log := en.log + events)
  }

  function Retired(en: Engine, r: Request, events: seq<Event>): Engine {
    en.(sys := Finish(Set(en, r).sys, r.id), log := en.log + events, emitters := Remove(en.emitters, r.id))
  }

  lemma ForPush(log: seq<Event>, ev: Event, id: Id)
    ensures For(log + [ev], id) == if ev.id == id then For(log, id) + [ev] else For(log, id)
  {
    assert (log + [ev])[..|log|] == log;
  }

  lemma ForPush2(log: seq<Event>, e1: Event, e2: Event, id: Id)
    requires e1.id == e2.id
    ensures For(log + [e1, e2], id) == if e1.id == id then For(log, id) + [e1, e2] else For(log, id)
  {
    assert log + [e1, e2] == log + [e1] + [e2];
    ForPush(log, e1, id);
    ForPush(log + [e1], e2, id);
    assert For(log, id) + [e1] + [e2] == For(log, id) + [e1, e2];
  }

  lemma TokensPush(id: Id, gen: seq<Token>, t: Token)
    ensures Tokens(id, gen + [t]) == Tokens(id, gen) + [TokenEvent(id, t)]
  {
  }

  /** Changing one request in place. */
  lemma SetQueues(en: Engine, r: Request)
    requires Queues(en.sys) && r.id in en.sys.running
    ensures Queues(Set(en, r).sys)
  {
  }

  lemma FinishQueues(sys: Sys, id: Id)
    requires Queues(sys) && id in sys.running
    ensures Queues(Finish(sys, id))
    ensures var sys' := Finish(sys, id);
      && sys'.waiting == sys.waiting && sys'.finished == sys.finished + [id]
      && (forall x :: x in sys'.running <==> x in sys.running && x != id)
      && id in sys'.reqs && sys'.reqs[id] == sys.reqs[id].(state := Finished, cache := None)
      && (forall x :: x in sys.reqs && x != id ==> x in sys'.reqs && sys'.reqs[x] == sys.reqs[x])
      && (forall x :: x in sys'.reqs ==> x in sys.reqs)
  {
    hide Release;
    RemoveFacts(sys.running, id);
    var sys' := Finish(sys, id);
    assert forall x :: x in sys'.finished <==> x in sys.finished || x == id;
    DistinctJoin(sys.finished, [id]);
  }

  /** Freeing a finished request's cache: everybody else's stays, and its own goes back empty. */
  lemma FinishExec(d: Decoder, sys: Sys, hs: seq<Hist>, id: Id, bad: set<Id>) returns (hs': seq<Hist>)
    requires ExecOk(d, sys.reqs, sys.arena, sys.running, hs, bad) && id in sys.running && Distinct(sys.running)
    requires id in sys.reqs
    ensures var sys' := Finish(sys, id);
      && ExecOk(d, sys'.reqs, sys'.arena, sys'.running, hs', bad - {id})
      && forall j :: j in sys.running && j != id && j in sys.reqs ==> Held(sys'.arena, sys.reqs[j]) == Held(sys.arena, sys.reqs[j])
  {
    hide ArenaOk, Do, History, Fed, Inv;
    RemoveFacts(sys.running, id);
    OkSize(d, sys.arena, hs);
    if sys.reqs[id].cache.None? {
      hs' := hs;
      DropLive(d, sys.reqs, sys.arena, sys.running, hs, id, bad, Finish(sys, id));
    } else {
      var c := sys.reqs[id].cache.value;
      hs' := hs[c := NoHist(d.layers)];
      FreeOk(d, sys.arena, hs, c);
      var a' := Call(sys.arena, Free(c)).arena;
      OkSize(d, a', hs');
      OthersKeep(d, sys.reqs, sys.arena, a', sys.running, hs, hs', id, bad);
      DropLive(d, sys.reqs, a', sys.running, hs', id, bad + {id}, Finish(sys, id));
      assert bad + {id} - {id} == bad - {id};
    }
  }

  lemma FreeOk(d: Decoder, a: Arena, hs: seq<Hist>, c: nat)
    requires ArenaOk(d, a, hs) && c < |a.caches|
    ensures var a' := Call(a, Free(c)).arena;
      ArenaOk(d, a', hs[c := NoHist(d.layers)]) && Moved(a, hs, a', hs[c := NoHist(d.layers)], c)
      && a'.caches[c].table == EMPTY_TABLE
  {
    hide Inv, Do, OnlyMoved;
    OkFacts(d, a, hs, c);
    FreeStep(a, hs, c, NOTHING);
    OkAfter(d, a, hs, Call(a, Free(c)).arena, hs[c := NoHist(d.layers)], c);
  }

  lemma DropLive(d: Decoder, reqs: map<Id, Request>, a: Arena, live: seq<Id>, hs: seq<Hist>, id: Id, bad: set<Id>, sys': Sys)
    requires ExecOk(d, reqs, a, live, hs, bad) && id in live && id in reqs && Distinct(live)
    requires reqs[id].cache.Some? ==> reqs[id].cache.value < |a.caches| && a.caches[reqs[id].cache.value].table.blocks == []
    requires sys'.running == Remove(live, id) && sys'.reqs == reqs[id := reqs[id].(state := Finished, cache := None)] && sys'.arena == a
    ensures ExecOk(d, sys'.reqs, a, sys'.running, hs, bad - {id})
  {
    hide ArenaOk, Owns;
    RemoveFacts(live, id);
    forall c | 0 <= c < |a.caches| && a.caches[c].table.blocks != []
      ensures exists j :: j in sys'.running && j in sys'.reqs && sys'.reqs[j].cache == Some(c)
    {
      var j :| j in live && j in reqs && reqs[j].cache == Some(c);
      assert j in sys'.running && sys'.reqs[j] == reqs[j];
    }
  }

  // -------------------------------------------------------------------------------- streams

  lemma StreamsProgress(cfg: Config, en: Engine, r: Request, events: seq<Event>)
    requires Queues(en.sys) && Streams(cfg, en) && r.id in en.sys.running && r.id in en.sys.reqs
    requires (events == [] && r.gen == en.sys.reqs[r.id].gen)
          || (|events| == 1 && events[0].TokenEvent? && events[0].id == r.id && r.gen == en.sys.reqs[r.id].gen + [events[0].token])
    ensures Streams(cfg, Progressed(en, r, events))
  {
    hide Closed, For, Tokens, Streams;
    var en' := Progressed(en, r, events);
    if events != [] {
      assert events == [events[0]];
      TokensPush(r.id, en.sys.reqs[r.id].gen, events[0].token);
    } else {
      assert en'.log == en.log;
      assert Tokens(r.id, r.gen) + events == Tokens(r.id, r.gen);
    }
    forall id ensures For(en'.log, id) == if id == r.id then For(en.log, id) + events else For(en.log, id) {
      if events != [] {
        ForPush(en.log, events[0], id);
      } else {
        assert For(en.log, id) + events == For(en.log, id);
      }
    }
    StreamsGrow(cfg, en, r, events);
  }

  lemma StreamsGrow(cfg: Config, en: Engine, r: Request, events: seq<Event>)
    requires Queues(en.sys) && Streams(cfg, en) && r.id in en.sys.running && r.id in en.sys.reqs
    requires forall id :: For(en.log + events, id) == if id == r.id then For(en.log, id) + events else For(en.log, id)
    requires Tokens(r.id, r.gen) == Tokens(r.id, en.sys.reqs[r.id].gen) + events
    ensures Streams(cfg, Progressed(en, r, events))
  {
    hide Closed, For, Tokens;
  }

  lemma StreamsRetire(cfg: Config, en: Engine, r: Request, events: seq<Event>)
    requires Queues(en.sys) && Streams(cfg, en) && r.id in en.sys.running && r.id in en.sys.reqs
    requires forall id :: For(en.log + events, id) == if id == r.id then For(en.log, id) + events else For(en.log, id)
    requires Closed(cfg, r, Tokens(r.id, en.sys.reqs[r.id].gen) + events)
    ensures Streams(cfg, Retired(en, r, events))
  {
    hide For, Tokens, Release, Closed, Finish, Remove;
    var en' := Retired(en, r, events);
    SetQueues(en, r);
    FinishQueues(Set(en, r).sys, r.id);
    RemoveFacts(en.emitters, r.id);
    assert Closed(cfg, en'.sys.reqs[r.id], For(en'.log, r.id)) by {
      ClosedAlike(cfg, r, en'.sys.reqs[r.id], For(en'.log, r.id));
    }
    forall id | id in en'.sys.finished && id in en'.sys.reqs
      ensures Closed(cfg, en'.sys.reqs[id], For(en'.log, id))
    {
      if id != r.id {
        assert id in en.sys.finished;
      }
    }
  }

  lemma ClosedAlike(cfg: Config, r: Request, r': Request, events: seq<Event>)
    requires Closed(cfg, r, events) && r'.id == r.id && r'.gen == r.gen && r'.maxNew == r.maxNew
    ensures Closed(cfg, r', events)
  {
    hide Tokens;
    var error, stopped :|
      && events == Tokens(r.id, r.gen) + [DoneEvent(r.id, error, stopped)]
      && (!error ==> StopsAtEnd(r.gen, r.maxNew, cfg.eos) && stopped == HitEos(r, cfg.eos));
    assert !error ==> StopsAtEnd(r'.gen, r'.maxNew, cfg.eos) && stopped == HitEos(r', cfg.eos);
  }

  // ------------------------------------------------------------------------- failing a request

  lemma SetSame(en: Engine, id: Id)
    requires Queues(en.sys) && id in en.sys.reqs
    ensures Set(en, en.sys.reqs[id]) == en
  {
    assert en.sys.reqs[id := en.sys.reqs[id]] == en.sys.reqs;
  }

  lemma FailOneIs(cfg: Config, en: Engine, id: Id)
    requires Queues(en.sys) && Streams(cfg, en) && id in en.sys.running && id in en.sys.reqs
    requires !IsTerminal(en.sys.reqs[id])
    ensures FailOne(en, id) == Retired(en, en.sys.reqs[id], [DoneEvent(id, true, false)])
  {
    SetSame(en, id);
  }

  lemma LivesFinish(d: Decoder, cfg: Config, en: Engine, r: Request)
    requires Queues(en.sys) && Lives(d, cfg, en.sys) && r.id in en.sys.running
    requires WellFormed(r) && Greedy(d, PromptInputs(d, r), r.gen)
    ensures Lives(d, cfg, Finish(Set(en, r).sys, r.id))
  {
    hide Greedy, Release, RunOk, WaitOk;
    SetQueues(en, r);
    FinishQueues(Set(en, r).sys, r.id);
    SameInputs(d, r, r.(state := Finished, cache := None));
  }

  lemma SameInputs(d: Decoder, r: Request, r': Request)
    requires r'.prompt == r.prompt && r'.embeds == r.embeds
    ensures PromptInputs(d, r') == PromptInputs(d, r)
  {
  }

  lemma SetExec(d: Decoder, en: Engine, hs: seq<Hist>, r: Request, bad: set<Id>)
    requires Queues(en.sys) && r.id in en.sys.running && r.id in en.sys.reqs
    requires ExecOk(d, en.sys.reqs, en.sys.arena, en.sys.running, hs, bad)
    requires var r0 := en.sys.reqs[r.id];
      r.cache == r0.cache && r.prompt == r0.prompt && r.embeds == r0.embeds && r0.gen <= r.gen
    ensures ExecOk(d, Set(en, r).sys.reqs, en.sys.arena, en.sys.running, hs, bad)
  {
    hide ArenaOk, History, Queues, Fed;
    var reqs, reqs' := en.sys.reqs, Set(en, r).sys.reqs;
    FedGrows(d, reqs[r.id], r);
    forall id | id in en.sys.running && id !in bad && id in reqs' ensures Owns(d, reqs'[id], en.sys.arena, hs) {
      assert Owns(d, reqs[id], en.sys.arena, hs);
      if id == r.id && r.cache.Some? {
        var n := Held(en.sys.arena, r);
        assert Fed(d, r)[..n] == Fed(d, reqs[id])[..n];
      }
    }
    forall c | 0 <= c < |en.sys.arena.caches| && en.sys.arena.caches[c].table.blocks != []
      ensures exists j :: j in en.sys.running && j in reqs' && reqs'[j].cache == Some(c)
    {
      var j :| j in en.sys.running && j in reqs && reqs[j].cache == Some(c);
      assert j in en.sys.running && j in reqs' && reqs'[j].cache == Some(c);
    }
  }

  lemma FedGrows(d: Decoder, r: Request, r': Request)
    requires r'.prompt == r.prompt && r'.embeds == r.embeds && r.gen <= r'.gen
    ensures Fed(d, r) <= Fed(d, r')
  {
    assert Embeds(d, r.gen) <= Embeds(d, r'.gen);
  }

  /** Retiring a pending request, whatever its cache holds. */
  lemma RetireMid(d: Decoder, cfg: Config, en: Engine, hs: seq<Hist>, pending: seq<Id>, out: Output, ok: bool, r: Request, events: seq<Event>)
    returns (hs': seq<Hist>)
    requires Mid(d, cfg, en, hs, pending, out, ok) && pending != [] && r.id == pending[0] && r.id in en.sys.reqs
    requires var r0 := en.sys.reqs[r.id];
      r.cache == r0.cache && r.prompt == r0.prompt && r.embeds == r0.embeds && r0.gen <= r.gen
    requires WellFormed(r) && Greedy(d, PromptInputs(d, r), r.gen)
    requires forall id :: For(en.log + events, id) == if id == r.id then For(en.log, id) + events else For(en.log, id)
    requires Closed(cfg, r, Tokens(r.id, en.sys.reqs[r.id].gen) + events)
    ensures Mid(d, cfg, Retired(en, r, events), hs', pending[1..], out, ok)
  {
    hide For, Tokens, Closed, ExecOk, Lives, Streams, Greedy, WellFormed, Fed, Held, Finish, Reported;
    StreamsRetire(cfg, en, r, events);
    LivesFinish(d, cfg, en, r);
    SetQueues(en, r);
    var sys1 := Set(en, r).sys;
    var bad := BadOf(pending, ok);
    BadRest(pending, ok);
    SetExec(d, en, hs, r, bad);
    FinishQueues(sys1, r.id);
    hs' := FinishExec(d, sys1, hs, r.id, bad);
    var en' := Retired(en, r, events);
    RestDistinct(pending);
    RetireOthers(d, cfg, en, sys1, en'.sys, hs, pending, out, ok, r.id);
  }

  lemma RestDistinct(ids: seq<Id>)
    requires Distinct(ids) && ids != []
    ensures Distinct(ids[1..]) && forall id :: id in ids[1..] <==> id in ids && id != ids[0]
  {
    assert ids == [ids[0]] + ids[1..];
  }

  /** Requests whose record and cache length did not change keep what was known of them. */
  lemma RetireOthers(d: Decoder, cfg: Config, en: Engine, sys1: Sys, sys': Sys, hs: seq<Hist>, pending: seq<Id>, out: Output, ok: bool, id: Id)
    requires Mid(d, cfg, en, hs, pending, out, ok) && pending != [] && id == pending[0]
    requires forall x :: x in sys'.running <==> x in en.sys.running && x != id
    requires forall x :: x in en.sys.reqs && x != id ==> x in sys'.reqs && sys'.reqs[x] == en.sys.reqs[x]
    requires forall x :: x in sys1.reqs && x != id ==> x in en.sys.reqs && sys1.reqs[x] == en.sys.reqs[x]
    requires forall x :: x in en.sys.reqs ==> x in sys1.reqs
    requires sys1.running == en.sys.running && sys1.arena == en.sys.arena
    requires forall x :: x in sys'.reqs ==> x in en.sys.reqs
    requires forall j :: j in sys1.running && j != id && j in sys1.reqs ==> Held(sys'.arena, sys1.reqs[j]) == Held(sys1.arena, sys1.reqs[j])
    ensures forall x :: x in sys'.running && x !in pending[1..] && x in sys'.reqs ==> CacheLength(d, sys'.reqs[x], sys'.arena)
    ensures forall x :: x in pending[1..] ==> x in sys'.running
    ensures ok ==> forall x :: x in pending[1..] && x in sys'.reqs ==>
      && WellFormed(sys'.reqs[x]) && (sys'.reqs[x].state == Decoding ==> sys'.reqs[x].gen != [])
      && Reported(d, cfg.chunk, sys'.reqs[x], sys'.reqs[x], sys'.arena, out)
  {
    hide Queues, Lives, Streams, ExecOk, Held, Fed, Next;
    RestDistinct(pending);
    forall x | x in sys'.running && x in sys'.reqs
      ensures x in sys1.reqs && sys1.reqs[x] == sys'.reqs[x] == en.sys.reqs[x]
      ensures Held(sys'.arena, sys'.reqs[x]) == Held(en.sys.arena, en.sys.reqs[x])
    {
    }
  }

  lemma FailOneMid(d: Decoder, cfg: Config, en: Engine, hs: seq<Hist>, pending: seq<Id>, out: Output) returns (hs': seq<Hist>)
    requires Mid(d, cfg, en, hs, pending, out, false) && pending != []
    ensures Mid(d, cfg, FailOne(en, pending[0]), hs', pending[1..], out, false)
  {
    hide For, Closed, ExecOk, Streams, Fed, Held, Greedy, FailOne, Tokens, Retired;
    var id := pending[0];
    assert id in en.sys.running && id in en.sys.reqs;
    var r := en.sys.reqs[id];
    assert RunOk(d, cfg.eos, r) && r.id == id;
    FailOneIs(cfg, en, id);
    var ev := DoneEvent(id, true, false);
    forall x ensures For(en.log + [ev], x) == if x == id then For(en.log, x) + [ev] else For(en.log, x) {
      ForPush(en.log, ev, x);
    }
    ClosedByError(cfg, r);
    hs' := RetireMid(d, cfg, en, hs, pending, out, false, r, [ev]);
  }

  lemma ClosedByError(cfg: Config, r: Request)
    ensures Closed(cfg, r, Tokens(r.id, r.gen) + [DoneEvent(r.id, true, false)])
  {
  }

  // ------------------------------------------------------------------------ applying a report

  /** The request after the engine applied its report, before the scheduler perhaps finishes it. */
  ghost function After(out: Output, r: Request): Request {
    var r1 := if r.id in out.prefilled then
                var r0 := r.(offset := r.offset + out.prefilled[r.id]);
                if PrefillDone(r0) then r0.(state := Decoding) else r0
              else r;
    if r.id in out.tokens then r1.(gen := r1.gen + [out.tokens[r.id]]) else r1
  }

  ghost function Produced(out: Output, id: Id): seq<Event> {
    if id in out.tokens then [TokenEvent(id, out.tokens[id])] else []
  }

  lemma ApplyOneIs(d: Decoder, cfg: Config, en: Engine, out: Output, id: Id)
    requires Queues(en.sys) && Streams(cfg, en) && id in en.sys.running && id in en.sys.reqs
    requires var r := en.sys.reqs[id];
      && WellFormed(r) && RunOk(d, cfg.eos, r)
      && Reported(d, cfg.chunk, r, r, en.sys.arena, out)
    ensures var r' := After(out, en.sys.reqs[id]);
      r'.id == id &&
      ApplyOne(cfg, en, out, id) ==
        if id in out.tokens && ShouldStop(r', cfg.eos)
        then Retired(en, r', [TokenEvent(id, out.tokens[id]), DoneEvent(id, false, HitEos(r', cfg.eos))])
        else Progressed(en, r', Produced(out, id))
  {
    hide Fed, Next, Greedy, For, Tokens, Closed, Release, Held, Stops, Streams, Finish, Remove, ApplyToken, ApplyProgress;
    var r := en.sys.reqs[id];
    StreamOpen(cfg, en, id);
    var r1 := After(out.(tokens := map[]), r);
    ProgressIs(d, cfg, en, out, id);
    TokenIs(cfg, Set(en, r1), out, id, After(out, r));
    assert Set(Set(en, r1), After(out, r)) == Set(en, After(out, r)) by {
      assert en.sys.reqs[id := r1][id := After(out, r)] == en.sys.reqs[id := After(out, r)];
    }
  }

  lemma ProgressIs(d: Decoder, cfg: Config, en: Engine, out: Output, id: Id)
    requires Queues(en.sys) && id in en.sys.reqs
    requires var r := en.sys.reqs[id];
      && WellFormed(r) && RunOk(d, cfg.eos, r)
      && Reported(d, cfg.chunk, r, r, en.sys.arena, out)
    ensures ApplyProgress(en, out, id) == Set(en, After(out.(tokens := map[]), en.sys.reqs[id]))
  {
    hide Fed, Next, Greedy, Held, Stops;
    SetSame(en, id);
  }

  lemma TokenIs(cfg: Config, en: Engine, out: Output, id: Id, r': Request)
    requires id in en.emitters && id in en.sys.reqs && en.sys.reqs[id].id == id && !IsTerminal(en.sys.reqs[id])
    requires var r := en.sys.reqs[id];
      r' == if id in out.tokens then r.(gen := r.gen + [out.tokens[id]]) else r
    ensures ApplyToken(cfg, en, out, id) ==
      if id in out.tokens && ShouldStop(r', cfg.eos)
      then Retired(en, r', [TokenEvent(id, out.tokens[id]), DoneEvent(id, false, HitEos(r', cfg.eos))])
      else Progressed(en, r', Produced(out, id))
  {
    hide Release, Stops, Remove;
    if id in out.tokens {
      var t := TokenEvent(id, out.tokens[id]);
      var done := DoneEvent(id, false, HitEos(r', cfg.eos));
      assert en.log + [t] + [done] == en.log + [t, done];
    } else {
      assert en.sys.reqs[id := r'] == en.sys.reqs;
      assert en.log + [] == en.log;
    }
  }

  lemma StreamOpen(cfg: Config, en: Engine, id: Id)
    requires Queues(en.sys) && Streams(cfg, en) && id in en.sys.running && id in en.sys.reqs
    ensures id in en.emitters && en.sys.reqs[id].id == id
  {
  }

  /** What a report does to the request: it stays a coherent running request with the right cache
      length, unless its last token is where it stops. */
  lemma AfterCoherent(d: Decoder, cfg: Config, a: Arena, out: Output, r: Request)
    requires RunOk(d, cfg.eos, r) && Reported(d, cfg.chunk, r, r, a, out)
    ensures var r' := After(out, r);
      && WellFormed(r') && Greedy(d, PromptInputs(d, r'), r'.gen)
      && r'.cache == r.cache && r'.prompt == r.prompt && r'.embeds == r.embeds && r.gen <= r'.gen && r'.maxNew == r.maxNew
      && r'.gen == (if r.id in out.tokens then r.gen + [out.tokens[r.id]] else r.gen)
      && (r.id in out.tokens && Stops(r'.gen, r'.maxNew, cfg.eos) ==> StopsAtEnd(r'.gen, r'.maxNew, cfg.eos))
      && ((r.id in out.tokens && Stops(r'.gen, r'.maxNew, cfg.eos)) || (RunOk(d, cfg.eos, r') && CacheLength(d, r', a)))
  {
    hide Next, Stops, History;
    var r' := After(out, r);
    SameInputs(d, r, r');
    FedLength(d, r);
    if r.id in out.tokens {
      var t := out.tokens[r.id];
      assert r'.gen == r.gen + [t];
      FedIs(d, r);
      GreedyPush(d, PromptInputs(d, r), r.gen);
      forall k | 0 < k < |r'.gen| ensures !Stops(r'.gen[..k], r'.maxNew, cfg.eos) {
        assert r'.gen[..k] == r.gen[..k];
      }
      assert r'.gen[..|r'.gen|] == r'.gen;
    }
  }

  lemma FedLength(d: Decoder, r: Request)
    requires WellFormed(r)
    ensures |Fed(d, r)| == |r.prompt| + |r.gen|
  {
  }

  lemma FedIs(d: Decoder, r: Request)
    ensures Fed(d, r) == PromptInputs(d, r) + Embeds(d, r.gen)
  {
  }

  /** The request keeps running: only its own record changed. */
  lemma ProgressMid(d: Decoder, cfg: Config, en: Engine, hs: seq<Hist>, pending: seq<Id>, out: Output, r: Request)
    requires Mid(d, cfg, en, hs, pending, out, true) && pending != [] && r.id == pending[0] && r.id in en.sys.reqs
    requires var r0 := en.sys.reqs[r.id];
      && r.cache == r0.cache && r.prompt == r0.prompt && r.embeds == r0.embeds && r0.gen <= r.gen
      && r.gen == if r.id in out.tokens then r0.gen + [out.tokens[r.id]] else r0.gen
    requires RunOk(d, cfg.eos, r) && CacheLength(d, r, en.sys.arena)
    ensures Mid(d, cfg, Progressed(en, r, Produced(out, r.id)), hs, pending[1..], out, true)
  {
    hide For, Closed, ExecOk, Streams, Fed, Held, Greedy, Reported, Tokens, WaitOk, RunOk, DoneOk, CacheLength, WellFormed;
    StreamsProgress(cfg, en, r, Produced(out, r.id));
    SetQueues(en, r);
    SetExec(d, en, hs, r, {});
    RestDistinct(pending);
    assert BadOf(pending, true) == BadOf(pending[1..], true) == {};
  }

  lemma ApplyOneMid(d: Decoder, cfg: Config, en: Engine, hs: seq<Hist>, pending: seq<Id>, out: Output) returns (hs': seq<Hist>)
    requires Mid(d, cfg, en, hs, pending, out, true) && pending != []
    ensures Mid(d, cfg, ApplyOne(cfg, en, out, pending[0]), hs', pending[1..], out, true)
  {
    hide For, Closed, ExecOk, Streams, Fed, Held, Greedy, Reported, Tokens, Retired, Progressed, ApplyOne, After, Stops, CacheLength, WellFormed, HitEos;
    var id := pending[0];
    assert id in en.sys.running && id in en.sys.reqs;
    var r := en.sys.reqs[id];
    assert r.id == id && RunOk(d, cfg.eos, r);
    var r' := After(out, r);
    ApplyOneIs(d, cfg, en, out, id);
    AfterCoherent(d, cfg, en.sys.arena, out, r);
    if id in out.tokens && ShouldStop(r', cfg.eos) {
      var t, done := TokenEvent(id, out.tokens[id]), DoneEvent(id, false, HitEos(r', cfg.eos));
      forall x ensures For(en.log + [t, done], x) == if x == id then For(en.log, x) + [t, done] else For(en.log, x) {
        ForPush2(en.log, t, done, x);
      }
      ClosedNormally(cfg, r, r', out.tokens[id]);
      hs' := RetireMid(d, cfg, en, hs, pending, out, true, r', [t, done]);
    } else {
      hs' := hs;
      ProgressMid(d, cfg, en, hs, pending, out, r');
    }
  }

  lemma ClosedNormally(cfg: Config, r: Request, r': Request, t: Token)
    requires r'.id == r.id && r'.gen == r.gen + [t] && StopsAtEnd(r'.gen, r'.maxNew, cfg.eos)
    ensures Closed(cfg, r', Tokens(r.id, r.gen) + [TokenEvent(r.id, t), DoneEvent(r.id, false, HitEos(r', cfg.eos))])
  {
    TokensPush(r.id, r.gen, t);
    assert Tokens(r.id, r.gen) + [TokenEvent(r.id, t), DoneEvent(r.id, false, HitEos(r', cfg.eos))]
        == Tokens(r'.id, r'.gen) + [DoneEvent(r'.id, false, HitEos(r', cfg.eos))];
  }

  lemma {:induction false} FailAllMid(d: Decoder, cfg: Config, en: Engine, hs: seq<Hist>, pending: seq<Id>, out: Output) returns (hs': seq<Hist>)
    requires Mid(d, cfg, en, hs, pending, out, false)
    ensures Mid(d, cfg, FailAll(en, pending), hs', [], out, false)
    decreases |pending|
  {
    hide Mid, FailOne;
    hs' := hs;
    if pending != [] {
      hs' := FailOneMid(d, cfg, en, hs, pending, out);
      hs' := FailAllMid(d, cfg, FailOne(en, pending[0]), hs', pending[1..], out);
    }
  }

  lemma {:induction false} ApplyAllMid(d: Decoder, cfg: Config, en: Engine, hs: seq<Hist>, pending: seq<Id>, out: Output) returns (hs': seq<Hist>)
    requires Mid(d, cfg, en, hs, pending, out, true)
    ensures Mid(d, cfg, ApplyAll(cfg, en, out, pending), hs', [], out, true)
    decreases |pending|
  {
    hide Mid, ApplyOne;
    hs' := hs;
    if pending != [] {
      hs' := ApplyOneMid(d, cfg, en, hs, pending, out);
      hs' := ApplyAllMid(d, cfg, ApplyOne(cfg, en, out, pending[0]), hs', pending[1..], out);
    }
  }

  lemma MidDone(d: Decoder, cfg: Config, en: Engine, hs: seq<Hist>, out: Output, ok: bool)
    requires Mid(d, cfg, en, hs, [], out, ok)
    ensures EngineInv(d, cfg, en, hs)
  {
    hide Queues, Lives, Streams, ExecOk, CacheLength;
    assert BadOf([], ok) == {};
  }

  // ------------------------------------------------------------------------- one whole step

  /** Admission gives a waiting request no cache yet, so nothing about the arena changes. */
  lemma ScheduleKeeps(d: Decoder, cfg: Config, en: Engine, hs: seq<Hist>)
    requires EngineInv(d, cfg, en, hs)
    ensures var (sys', b) := Schedule(cfg, en.sys);
      && EngineInv(d, cfg, en.(sys := sys'), hs)
      && Distinct(b.prefill + b.decode)
      && forall id :: id in b.prefill + b.decode ==>
           && id in sys'.running && id in sys'.reqs
           && sys'.reqs[id].state == if id in b.prefill then Prefilling else Decoding
  {
    hide Schedule, ExecOk, Lives, Streams, CacheLength, Decision, Stopped, Fitted;
    var k := ScheduleDecides(cfg, en.sys);
    var (sys', b) := Schedule(cfg, en.sys);
    SchedulePartitions(cfg, en.sys, sys', b, k);
    DecisionAdmits(cfg, en.sys, sys', b, k);
    AdmittedLives(d, cfg, en.sys, sys', k);
    AdmittedStreams(cfg, en, sys', k, d);
    AdmittedExec(d, cfg, en.sys, sys', hs, k);
    AdmittedLength(d, cfg, en.sys, sys', k);
  }

  lemma DecisionAdmits(cfg: Config, sys: Sys, sys': Sys, b: Batch, k: nat)
    requires Decision(cfg, sys, sys', b, k)
    ensures Admitted(sys, sys', k)
  {
  }

  lemma AdmittedLives(d: Decoder, cfg: Config, sys: Sys, sys': Sys, k: nat)
    requires Queues(sys) && Lives(d, cfg, sys) && Admitted(sys, sys', k)
    ensures Lives(d, cfg, sys')
    ensures forall id :: id in sys.waiting[..k] ==> id in sys'.reqs && WaitOk(sys'.reqs[id].(state := Waiting))
  {
    hide DoneOk, PromptInputs, WellFormed;
    SplitDistinct(sys.waiting, k);
    forall id | id in sys.waiting[..k] ensures id in sys.reqs && WaitOk(sys.reqs[id]) && RunOk(d, cfg.eos, sys'.reqs[id]) {
      NewRuns(d, cfg, sys.reqs[id]);
    }
  }

  lemma NewRuns(d: Decoder, cfg: Config, r: Request)
    requires WaitOk(r)
    ensures RunOk(d, cfg.eos, r.(state := Prefilling))
  {
  }

  lemma AdmittedStreams(cfg: Config, en: Engine, sys': Sys, k: nat, d: Decoder)
    requires Queues(en.sys) && Streams(cfg, en) && Admitted(en.sys, sys', k) && Lives(d, cfg, en.sys)
    ensures Streams(cfg, en.(sys := sys'))
  {
    hide For, Tokens, Lives;
    SplitDistinct(en.sys.waiting, k);
    forall id | id in sys'.finished && id in sys'.reqs ensures Closed(cfg, sys'.reqs[id], For(en.log, id)) {
      assert id in en.sys.finished && id !in en.sys.waiting[..k];
    }
  }

  lemma AdmittedExec(d: Decoder, cfg: Config, sys: Sys, sys': Sys, hs: seq<Hist>, k: nat)
    requires Queues(sys) && Lives(d, cfg, sys) && Admitted(sys, sys', k)
    requires ExecOk(d, sys.reqs, sys.arena, sys.running, hs, {})
    ensures ExecOk(d, sys'.reqs, sys'.arena, sys'.running, hs, {})
  {
    hide ArenaOk, Owns, Lives, Queues, Admitted;
    AdmittedCaches(d, cfg, sys, sys', k);
    forall c | 0 <= c < |sys.arena.caches| && sys.arena.caches[c].table.blocks != []
      ensures exists j :: j in sys'.running && j in sys'.reqs && sys'.reqs[j].cache == Some(c)
    {
      var j :| j in sys.running && j in sys.reqs && sys.reqs[j].cache == Some(c);
      assert j in sys'.running && j in sys'.reqs && sys'.reqs[j].cache == Some(c);
    }
    forall id | id in sys'.running && id in sys'.reqs ensures Owns(d, sys'.reqs[id], sys'.arena, hs) {
      if id !in sys.running {
        NothingOwned(d, sys'.reqs[id], sys'.arena, hs);
      }
    }
  }

  /** Who ran before runs on as it was; who runs now and did not has no cache. */
  lemma AdmittedCaches(d: Decoder, cfg: Config, sys: Sys, sys': Sys, k: nat)
    requires Queues(sys) && Lives(d, cfg, sys) && Admitted(sys, sys', k)
    ensures sys'.arena == sys.arena
    ensures forall id :: id in sys.running ==> id in sys'.running && id in sys.reqs && id in sys'.reqs && sys'.reqs[id] == sys.reqs[id]
    ensures forall id :: id in sys'.running ==> id in sys'.reqs && (id !in sys.running ==> sys'.reqs[id].cache == None)
  {
    hide RunOk, DoneOk;
    SplitDistinct(sys.waiting, k);
    forall id | id in sys.waiting[..k] ensures id in sys'.reqs && sys'.reqs[id].cache == None {
      assert WaitOk(sys.reqs[id]);
    }
  }

  lemma NothingOwned(d: Decoder, r: Request, a: Arena, hs: seq<Hist>)
    requires r.cache == None
    ensures Owns(d, r, a, hs)
  {
  }

  lemma AdmittedLength(d: Decoder, cfg: Config, sys: Sys, sys': Sys, k: nat)
    requires Queues(sys) && Lives(d, cfg, sys) && Admitted(sys, sys', k)
    requires forall id :: id in sys.running && id in sys.reqs ==> CacheLength(d, sys.reqs[id], sys.arena)
    ensures forall id :: id in sys'.running && id in sys'.reqs ==> CacheLength(d, sys'.reqs[id], sys'.arena)
  {
    hide RunOk, DoneOk, Held;
    SplitDistinct(sys.waiting, k);
    forall id | id in sys'.running && id in sys'.reqs ensures CacheLength(d, sys'.reqs[id], sys'.arena) {
      if id !in sys.running {
        assert id in sys.waiting[..k] && WaitOk(sys.reqs[id]);
        NothingHeld(sys'.arena, sys'.reqs[id]);
      }
    }
  }

  lemma NothingHeld(a: Arena, r: Request)
    requires r.cache == None
    ensures Held(a, r) == 0
  {
  }

  /** One iteration of the worker loop, whatever the executor does: lifecycle coherence, exact
      private histories and stream contents all survive. */
  lemma StepKeeps(d: Decoder, cfg: Config, en: Engine, hs: seq<Hist>, fuel: nat) returns (hs': seq<Hist>)
    requires EngineInv(d, cfg, en, hs)
    ensures EngineInv(d, cfg, Step(d, cfg, en, fuel), hs')
  {
    hide EngineInv, Schedule, Execute, ExecOk, Mid, FailAll, ApplyAll;
    ScheduleKeeps(d, cfg, en, hs);
    var (sys, b) := Schedule(cfg, en.sys);
    hs' := hs;
    if !(b.prefill == [] && b.decode == []) {
      var ids := b.prefill + b.decode;
      hs' := ExecuteMid(d, cfg, en.(sys := sys), b, hs, fuel);
      var e := Execute(d, cfg, sys, b, fuel);
      var en1 := en.(sys := sys.(reqs := e.reqs, arena := e.arena));
      if e.error.Some? {
        hs' := FailAllMid(d, cfg, en1, hs', ids, e.out);
        MidDone(d, cfg, FailAll(en1, ids), hs', e.out, false);
      } else {
        hs' := ApplyAllMid(d, cfg, en1, hs', ids, e.out);
        MidDone(d, cfg, ApplyAll(cfg, en1, e.out, ids), hs', e.out, true);
      }
    }
  }

  lemma ExecuteMid(d: Decoder, cfg: Config, en: Engine, b: Batch, hs: seq<Hist>, fuel: nat) returns (hs': seq<Hist>)
    requires EngineInv(d, cfg, en, hs) && Distinct(b.prefill + b.decode)
    requires forall id :: id in b.prefill + b.decode ==>
      && id in en.sys.running && id in en.sys.reqs
      && en.sys.reqs[id].state == if id in b.prefill then Prefilling else Decoding
    ensures var e := Execute(d, cfg, en.sys, b, fuel);
      Mid(d, cfg, en.(sys := en.sys.(reqs := e.reqs, arena := e.arena)), hs', b.prefill + b.decode, e.out, e.error.None?)
  {
    hide Execute, ExecOk, Touched, AllReported, Streams, For, Reported, Ready, Held, Fed;
    var sys, ids := en.sys, b.prefill + b.decode;
    forall id | id in ids ensures id in sys.reqs && sys.reqs[id].id == id && Ready(d, sys.reqs[id], sys.arena) {
      ReadyFrom(d, cfg, sys.reqs[id], sys.arena);
    }
    hs' := BatchCorrect(d, cfg, sys, b, hs, fuel);
    var e0 := Exec(sys.reqs, sys.arena, Output(map[], map[]), fuel, None);
    var e := Execute(d, cfg, sys, b, fuel);
    var sys' := sys.(reqs := e.reqs, arena := e.arena);
    TouchedKeeps(d, cfg, en, sys', e0, e, ids);
    assert BadOf(ids, e.error.None?) == if e.error.None? then {} else set id | id in ids;
    if e.error.None? {
      ReportedSelf(d, cfg.chunk, e0, e, ids);
    }
  }

  lemma ReadyFrom(d: Decoder, cfg: Config, r: Request, a: Arena)
    requires RunOk(d, cfg.eos, r) && CacheLength(d, r, a)
    ensures Ready(d, r, a)
  {
    FedLength(d, r);
  }

  lemma ReportedSelf(d: Decoder, chunk: nat, e: Exec, e': Exec, ids: seq<Id>)
    requires AllReported(d, chunk, e, e', ids)
    ensures forall id :: id in ids && id in e'.reqs ==>
      && WellFormed(e'.reqs[id]) && (e'.reqs[id].state == Decoding ==> e'.reqs[id].gen != [])
      && Reported(d, chunk, e'.reqs[id], e'.reqs[id], e'.arena, e'.out)
  {
    hide Held, Next, Fed, History;
    forall id | id in ids && id in e'.reqs
      ensures Fed(d, e.reqs[id]) == Fed(d, e'.reqs[id])
    {
      SameFed(d, e.reqs[id], e'.reqs[id]);
    }
  }

  /** Running part of the batch changes nothing about a request but its cache, and nothing at all
      about those outside it. */
  ghost predicate SameButCaches(sys: Sys, sys': Sys, ids: seq<Id>) {
    && sys' == sys.(reqs := sys'.reqs, arena := sys'.arena) && sys'.reqs.Keys == sys.reqs.Keys
    && (forall j :: j in sys.reqs ==> sys'.reqs[j] == sys.reqs[j].(cache := sys'.reqs[j].cache))
    && (forall j :: j in sys.reqs && j !in ids ==> sys'.reqs[j] == sys.reqs[j])
    && (forall j :: j in ids ==> j in sys.running)
  }

  lemma TouchedLives(d: Decoder, cfg: Config, sys: Sys, sys': Sys, ids: seq<Id>)
    requires Queues(sys) && Lives(d, cfg, sys) && SameButCaches(sys, sys', ids)
    ensures Queues(sys') && Lives(d, cfg, sys')
  {
    hide Greedy, Stops, PromptInputs, WellFormed;
    forall id | id in sys'.running && id in sys'.reqs ensures RunOk(d, cfg.eos, sys'.reqs[id]) {
      SameRunOk(d, cfg.eos, sys.reqs[id], sys'.reqs[id]);
    }
  }

  lemma SameRunOk(d: Decoder, eos: Option<Token>, r: Request, r': Request)
    requires RunOk(d, eos, r) && r' == r.(cache := r'.cache)
    ensures RunOk(d, eos, r')
  {
    hide Greedy;
  }

  lemma TouchedStreams(cfg: Config, en: Engine, sys': Sys, ids: seq<Id>)
    requires Queues(en.sys) && Streams(cfg, en) && SameButCaches(en.sys, sys', ids)
    ensures Streams(cfg, en.(sys := sys'))
  {
    hide For, Closed, Tokens;
  }

  lemma TouchedKeeps(d: Decoder, cfg: Config, en: Engine, sys': Sys, e0: Exec, e: Exec, ids: seq<Id>)
    requires Queues(en.sys) && Lives(d, cfg, en.sys) && Streams(cfg, en)
    requires forall id :: id in en.sys.running && id in en.sys.reqs ==> CacheLength(d, en.sys.reqs[id], en.sys.arena)
    requires e0.reqs == en.sys.reqs && e0.arena == en.sys.arena && Touched(e0, e, ids, en.sys.running)
    requires forall id :: id in ids ==> id in en.sys.running
    requires sys' == en.sys.(reqs := e.reqs, arena := e.arena)
    ensures Queues(sys') && Lives(d, cfg, sys') && Streams(cfg, en.(sys := sys'))
    ensures forall id :: id in sys'.running && id !in ids && id in sys'.reqs ==> CacheLength(d, sys'.reqs[id], sys'.arena)
  {
    hide Queues, Lives, Streams, Touched;
    TouchedFacts(en.sys, sys', e0, e, ids);
    TouchedLives(d, cfg, en.sys, sys', ids);
    TouchedStreams(cfg, en, sys', ids);
  }

  lemma TouchedFacts(sys: Sys, sys': Sys, e0: Exec, e: Exec, ids: seq<Id>)
    requires e0.reqs == sys.reqs && e0.arena == sys.arena && Touched(e0, e, ids, sys.running)
    requires forall id :: id in ids ==> id in sys.running
    requires sys' == sys.(reqs := e.reqs, arena := e.arena)
    ensures SameButCaches(sys, sys', ids)
    ensures forall id :: id in sys'.running && id !in ids && id in sys'.reqs ==>
      id in sys.reqs && sys'.reqs[id] == sys.reqs[id] && Held(sys'.arena, sys'.reqs[id]) == Held(sys.arena, sys.reqs[id])
  {
    hide Held;
    assert forall id :: id in sys'.reqs ==> id in e0.reqs;
  }
}
