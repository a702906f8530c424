/** What a client sees, in terms of what it submitted: its own request's tokens, ending where they should. */
module StreamEnds {
  import opened Common
  import opened Tensors
  import opened Decoders
  import opened Requests
  import opened Scheduling
  import opened Serving
  import opened EngineProofs
  import opened EngineRuns
  import opened Shapes
  import opened LivenessProofs
  import opened FullService

  // ------------------------------------------------------------------ requests stay as submitted

  predicate Alike(r: Request, q: Request) {
    q.id == r.id && q.prompt == r.prompt && q.embeds == r.embeds && q.maxNew == r.maxNew
  }

  /** The server has the request: in its inbox, or queued with the prompt and limit it came with. */
  ghost predicate Has(en: Engine, r: Request) {
    || (r.id in en.sys.reqs && Alike(r, en.sys.reqs[r.id]))
    || exists i :: 0 <= i < |en.inbox| && en.inbox[i] == r
  }

  lemma StaysAlike(d: Decoder, cfg: Config, en: Engine, en': Engine, hs: seq<Hist>, hs': seq<Hist>, r: Request)
    requires EngineInv(d, cfg, en, hs) && EngineInv(d, cfg, en', hs') && Static(en.sys, en'.sys) && en'.inbox == en.inbox
    requires Has(en, r)
    ensures Has(en', r)
  {
    hide Lives, Streams, CacheLength;
    assert en'.sys.reqs.Keys == en.sys.reqs.Keys;
  }

  lemma DrainHas(en: Engine, r: Request)
    requires InboxOk(en) && Has(en, r)
    ensures Has(Drain(en), r)
  {
    hide WaitOk;
    DrainStores(en);
  }

  lemma ActHas(d: Decoder, cfg: Config, en: Engine, hs: seq<Hist>, action: Action, hs': seq<Hist>, r: Request)
    requires RunInv(d, cfg, en, hs) && RunInv(d, cfg, Act(d, cfg, en, action), hs') && Has(en, r)
    ensures Has(Act(d, cfg, en, action), r)
  {
    hide EngineInv, Settled, Step, Drain, WaitOk, Alike, Static;
    if en.alive {
      match action
      case Submit(q) =>
        var i :| (r.id in en.sys.reqs && Alike(r, en.sys.reqs[r.id])) || (0 <= i < |en.inbox| && en.inbox[i] == r);
        assert (r.id in en.sys.reqs && Alike(r, en.sys.reqs[r.id])) || (en.inbox + [q])[i] == r;
      case DrainInbox => DrainHas(en, r);
      case Iterate(fuel) =>
        if HasWork(en.sys) {
          StepIsStatic(d, cfg, en, hs, fuel);
          StepKeepsInbox(d, cfg, en, hs, fuel);
          StaysAlike(d, cfg, en, Step(d, cfg, en, fuel), hs, hs', r);
        }
      case Exit =>
    }
  }

  lemma {:induction false} RunHas(d: Decoder, cfg: Config, en: Engine, hs: seq<Hist>, actions: seq<Action>, r: Request)
    requires RunInv(d, cfg, en, hs) && Permitted(d, cfg, en, actions) && Has(en, r)
    ensures Has(Run(d, cfg, en, actions), r)
    decreases |actions|
  {
    hide RunInv, Act, WaitOk, Known, Has;
    if actions != [] {
      var hs' := ActKeeps(d, cfg, en, hs, actions[0]);
      ActHas(d, cfg, en, hs, actions[0], hs', r);
      RunHas(d, cfg, Act(d, cfg, en, actions[0]), hs', actions[1..], r);
    }
  }

  lemma {:induction false} DeadStays(d: Decoder, cfg: Config, en: Engine, actions: seq<Action>)
    requires !en.alive
    ensures Run(d, cfg, en, actions) == en
    decreases |actions|
  {
    if actions != [] {
      DeadStays(d, cfg, en, actions[1..]);
    }
  }

  /** Whatever happens later, a submitted request is served with the prompt and limit it was submitted with. */
  lemma {:induction false} ServedAsSubmitted(d: Decoder, cfg: Config, en: Engine, hs: seq<Hist>, actions: seq<Action>, i: nat, r: Request)
    requires RunInv(d, cfg, en, hs) && Permitted(d, cfg, en, actions) && i < |actions| && actions[i] == Submit(r)
    ensures var en' := Run(d, cfg, en, actions);
      r.id in en'.sys.reqs ==> Alike(r, en'.sys.reqs[r.id])
    decreases |actions|
  {
    hide EngineInv, Settled, Step, Drain, WaitOk, Alike;
    var hs1 := ActKeeps(d, cfg, en, hs, actions[0]);
    var en1 := Act(d, cfg, en, actions[0]);
    if i > 0 {
      ServedAsSubmitted(d, cfg, en1, hs1, actions[1..], i - 1, r);
    } else if en.alive {
      assert en1.inbox[|en.inbox|] == r;
      RunHas(d, cfg, en1, hs1, actions[1..], r);
      var hs' := RunKeeps(d, cfg, en1, hs1, actions[1..]);
    } else {
      DeadStays(d, cfg, en, actions);
    }
  }

  // ------------------------------------------------------------------------- where a stream ends

  ghost predicate TokensThenDone(events: seq<Event>, id: Id, gen: seq<Token>, stopped: bool) {
    && |events| == |gen| + 1 && events[|gen|] == DoneEvent(id, false, stopped)
    && forall k :: 0 <= k < |gen| ==> events[k] == TokenEvent(id, gen[k])
  }

  /** Over every run, for every request submitted in it: a stream that closed without an error is the tokens
      that serving the submitted prompt alone, up to the submitted limit, generates. None before the last is
      the end-of-sequence token; there are as many as the limit allows, or the last one is that token; and
      the closing event says which. */
  lemma StreamEndsRight(d: Decoder, cfg: Config, numBlocks: nat, blockSize: nat, zero: KV, actions: seq<Action>, i: nat, r: Request)
    requires d.layers > 0 && blockSize > 0
    requires Permitted(d, cfg, Start(d.layers, numBlocks, blockSize, zero), actions)
    requires i < |actions| && actions[i] == Submit(r)
    ensures var events := For(Run(d, cfg, Start(d.layers, numBlocks, blockSize, zero), actions).log, r.id);
      forall stopped :: EndsWith(events, DoneEvent(r.id, false, stopped)) ==>
        var inputs := if r.embeds.Some? then r.embeds.value else Embeds(d, r.prompt);
        && inputs != []
        && var gen := Solo(d, inputs, r.maxNew, cfg.eos);
        && TokensThenDone(events, r.id, gen, stopped)
        && (forall k :: 0 <= k < |gen| - 1 ==> Some(gen[k]) != cfg.eos)
        && 1 <= |gen| <= Max(1, r.maxNew) && (|gen| == Max(1, r.maxNew) || Some(gen[|gen| - 1]) == cfg.eos)
        && (stopped <==> Some(gen[|gen| - 1]) == cfg.eos)
  {
    hide Start, Run, For, Closed, Solo, Tokens, Permitted, RunInv, Alike, EndsWith;
    var en0 := Start(d.layers, numBlocks, blockSize, zero);
    StartOk(d, cfg, numBlocks, blockSize, zero);
    ServedAsSubmitted(d, cfg, en0, [], actions, i, r);
    ServingRefinesSolo(d, cfg, numBlocks, blockSize, zero, actions);
    var en := Run(d, cfg, en0, actions);
    var events := For(en.log, r.id);
    forall stopped | EndsWith(events, DoneEvent(r.id, false, stopped))
      ensures var inputs := if r.embeds.Some? then r.embeds.value else Embeds(d, r.prompt);
        && inputs != []
        && var gen := Solo(d, inputs, r.maxNew, cfg.eos);
        && TokensThenDone(events, r.id, gen, stopped)
        && (forall k :: 0 <= k < |gen| - 1 ==> Some(gen[k]) != cfg.eos)
        && 1 <= |gen| <= Max(1, r.maxNew) && (|gen| == Max(1, r.maxNew) || Some(gen[|gen| - 1]) == cfg.eos)
        && (stopped <==> Some(gen[|gen| - 1]) == cfg.eos)
    {
      EndedThere(events, DoneEvent(r.id, false, stopped));
      assert r.id in en.sys.reqs;
      OneStream(d, cfg, r, en.sys.reqs[r.id], events, stopped);
    }
  }

  lemma EndedThere(events: seq<Event>, last: Event)
    requires EndsWith(events, last)
    ensures events != [] && events[|events| - 1] == last
  {
  }

  lemma OnlyTokens(id: Id, gen: seq<Token>, last: Event)
    ensures EndsWith(Tokens(id, gen), last) ==> last.TokenEvent?
  {
  }

  lemma OneStream(d: Decoder, cfg: Config, r: Request, q: Request, events: seq<Event>, stopped: bool)
    requires Alike(r, q) && SoloIfOk(d, cfg, q, events) && EndsWith(events, DoneEvent(r.id, false, stopped))
    requires events == Tokens(q.id, q.gen) || Closed(cfg, q, events)
    ensures var inputs := if r.embeds.Some? then r.embeds.value else Embeds(d, r.prompt);
      && inputs != []
      && var gen := Solo(d, inputs, r.maxNew, cfg.eos);
      && TokensThenDone(events, r.id, gen, stopped)
      && (forall k :: 0 <= k < |gen| - 1 ==> Some(gen[k]) != cfg.eos)
      && 1 <= |gen| <= Max(1, r.maxNew) && (|gen| == Max(1, r.maxNew) || Some(gen[|gen| - 1]) == cfg.eos)
      && (stopped <==> Some(gen[|gen| - 1]) == cfg.eos)
  {
    hide Solo, Embeds, StopsAtEnd;
    var inputs := if r.embeds.Some? then r.embeds.value else Embeds(d, r.prompt);
    assert inputs == PromptInputs(d, q) && events[|events| - 1] == DoneEvent(q.id, false, stopped);
    var gen := Solo(d, inputs, r.maxNew, cfg.eos);
    SoloEnds(d, inputs, r.maxNew, cfg.eos);
    OnlyTokens(q.id, q.gen, DoneEvent(r.id, false, stopped));
    var error, flag :|
      && events == Tokens(q.id, q.gen) + [DoneEvent(q.id, error, flag)]
      && (!error ==> StopsAtEnd(q.gen, q.maxNew, cfg.eos) && flag == HitEos(q, cfg.eos));
    assert !error && flag == stopped && |q.gen| == |gen|;
    forall k | 0 <= k < |gen| ensures q.gen[k] == gen[k] {
      assert events[k] == TokenEvent(q.id, q.gen[k]);
    }
  }

  /** Every stream at any time, open, closed or failed: tokens, each the greedy next one after the submitted
      inputs and the tokens before it, and then at most one closing event. */
  lemma StreamIsGreedy(d: Decoder, cfg: Config, numBlocks: nat, blockSize: nat, zero: KV, actions: seq<Action>, i: nat, r: Request)
    returns (gen: seq<Token>, closing: seq<Event>)
    requires d.layers > 0 && blockSize > 0
    requires Permitted(d, cfg, Start(d.layers, numBlocks, blockSize, zero), actions)
    requires i < |actions| && actions[i] == Submit(r)
    ensures var events := For(Run(d, cfg, Start(d.layers, numBlocks, blockSize, zero), actions).log, r.id);
      var inputs := if r.embeds.Some? then r.embeds.value else Embeds(d, r.prompt);
      && |events| == |gen| + |closing| && events[|gen|..] == closing
      && |closing| <= 1 && (closing != [] ==> closing[0].DoneEvent? && closing[0].id == r.id)
      && (forall k :: 0 <= k < |gen| ==> events[k] == TokenEvent(r.id, gen[k]))
      && (gen != [] ==> inputs != []) && forall k :: 0 <= k < |gen| ==> inputs + Embeds(d, gen[..k]) != [] && gen[k] == Next(d, inputs + Embeds(d, gen[..k]))
  {
    hide Start, Run, For, Closed, Tokens, Permitted, Alike, Next, WaitOk, RunOk, DoneOk, CacheLength;
    var en0 := Start(d.layers, numBlocks, blockSize, zero);
    StartOk(d, cfg, numBlocks, blockSize, zero);
    ServedAsSubmitted(d, cfg, en0, [], actions, i, r);
    ServingRefinesSolo(d, cfg, numBlocks, blockSize, zero, actions);
    var hs := RunKeeps(d, cfg, en0, [], actions);
    var en := Run(d, cfg, en0, actions);
    if r.id in en.sys.reqs {
      GreedyThere(d, cfg, en, hs, r.id);
      gen, closing := OneGreedy(d, cfg, r, en.sys.reqs[r.id], For(en.log, r.id));
    } else {
      gen, closing := [], [];
    }
  }

  lemma GreedyThere(d: Decoder, cfg: Config, en: Engine, hs: seq<Hist>, id: Id)
    requires RunInv(d, cfg, en, hs) && id in en.sys.reqs
    ensures Greedy(d, PromptInputs(d, en.sys.reqs[id]), en.sys.reqs[id].gen)
  {
    hide Next, Streams, CacheLength;
    if en.alive && id in en.sys.waiting {
      NothingGenerated(d, en.sys.reqs[id]);
    }
  }

  lemma OneGreedy(d: Decoder, cfg: Config, r: Request, q: Request, events: seq<Event>) returns (gen: seq<Token>, closing: seq<Event>)
    requires Alike(r, q) && (events == Tokens(q.id, q.gen) || Closed(cfg, q, events)) && Greedy(d, PromptInputs(d, q), q.gen)
    ensures var inputs := if r.embeds.Some? then r.embeds.value else Embeds(d, r.prompt);
      && |events| == |gen| + |closing| && events[|gen|..] == closing
      && |closing| <= 1 && (closing != [] ==> closing[0].DoneEvent? && closing[0].id == r.id)
      && (forall k :: 0 <= k < |gen| ==> events[k] == TokenEvent(r.id, gen[k]))
      && (gen != [] ==> inputs != []) && forall k :: 0 <= k < |gen| ==> inputs + Embeds(d, gen[..k]) != [] && gen[k] == Next(d, inputs + Embeds(d, gen[..k]))
  {
    hide Next, Embeds, StopsAtEnd;
    gen, closing := q.gen, [];
    if events != Tokens(q.id, q.gen) {
      var error, flag :| events == Tokens(q.id, q.gen) + [DoneEvent(q.id, error, flag)]
        && (!error ==> StopsAtEnd(q.gen, q.maxNew, cfg.eos) && flag == HitEos(q, cfg.eos));
      closing := [DoneEvent(q.id, error, flag)];
    }
  }

  // --------------------------------------------------------------------------- which runs these are

  /** Every submission is well-formed, and no two share an id. */
  ghost predicate DistinctSubmissions(actions: seq<Action>) {
    && (forall i :: 0 <= i < |actions| && actions[i].Submit? ==> WaitOk(actions[i].r))
    && (forall i, j :: 0 <= i < j < |actions| && actions[i].Submit? && actions[j].Submit? ==> actions[i].r.id != actions[j].r.id)
  }

  lemma {:induction false} DrainInvents(en: Engine, id: Id)
    ensures Known(Drain(en), id) ==> Known(en, id)
    decreases |en.inbox|
  {
    if en.inbox != [] {
      var r := en.inbox[0];
      var en1 := en.(inbox := en.inbox[1..], emitters := if r.id in en.emitters then en.emitters else en.emitters + [r.id], sys := AddRequest(en.sys, r));
      DrainInvents(en1, id);
      if Known(en1, id) && id !in en.sys.reqs {
        if id in en1.sys.reqs {
          assert en.inbox[0].id == id;
        } else {
          var i :| 0 <= i < |en1.inbox| && en1.inbox[i].id == id;
          assert en.inbox[i + 1].id == id;
        }
      }
    }
  }

  lemma ActInvents(d: Decoder, cfg: Config, en: Engine, hs: seq<Hist>, action: Action, id: Id)
    requires RunInv(d, cfg, en, hs) && Known(Act(d, cfg, en, action), id)
    ensures Known(en, id) || (action.Submit? && action.r.id == id)
  {
    hide EngineInv, Settled, Step, Drain, WaitOk, InboxOk;
    if en.alive {
      match action
      case Submit(q) =>
        if id !in en.sys.reqs && q.id != id {
          var i :| 0 <= i < |en.inbox + [q]| && (en.inbox + [q])[i].id == id;
          assert i < |en.inbox| && en.inbox[i].id == id;
        }
      case DrainInbox => DrainInvents(en, id);
      case Iterate(fuel) =>
        if HasWork(en.sys) {
          StepKeepsInbox(d, cfg, en, hs, fuel);
          assert id in Step(d, cfg, en, fuel).sys.reqs.Keys <==> id in en.sys.reqs.Keys;
        }
      case Exit =>
    }
  }

  lemma {:induction false} FreshPermitted(d: Decoder, cfg: Config, en: Engine, hs: seq<Hist>, actions: seq<Action>)
    requires RunInv(d, cfg, en, hs) && DistinctSubmissions(actions)
    requires forall i :: 0 <= i < |actions| && actions[i].Submit? ==> !Known(en, actions[i].r.id)
    ensures Permitted(d, cfg, en, actions)
    decreases |actions|
  {
    hide RunInv, Act, WaitOk, Known;
    if actions != [] {
      var hs' := ActKeeps(d, cfg, en, hs, actions[0]);
      var en1, rest := Act(d, cfg, en, actions[0]), actions[1..];
      forall i | 0 <= i < |rest| && rest[i].Submit? ensures !Known(en1, rest[i].r.id) {
        assert rest[i] == actions[i + 1];
        if Known(en1, rest[i].r.id) {
          ActInvents(d, cfg, en, hs, actions[0], rest[i].r.id);
        }
      }
      forall i, j | 0 <= i < j < |rest| && rest[i].Submit? && rest[j].Submit? ensures rest[i].r.id != rest[j].r.id {
        assert rest[i] == actions[i + 1] && rest[j] == actions[j + 1];
      }
      FreshPermitted(d, cfg, en1, hs', rest);
    }
  }

  /** All it takes for a run to be one the serving theorems are about: ids that differ, and requests that
      arrive with a prompt and no progress. */
  lemma DistinctIdsSuffice(d: Decoder, cfg: Config, numBlocks: nat, blockSize: nat, zero: KV, actions: seq<Action>)
    requires d.layers > 0 && blockSize > 0 && DistinctSubmissions(actions)
    ensures Permitted(d, cfg, Start(d.layers, numBlocks, blockSize, zero), actions)
  {
    hide RunInv, DistinctSubmissions;
    StartOk(d, cfg, numBlocks, blockSize, zero);
    FreshPermitted(d, cfg, Start(d.layers, numBlocks, blockSize, zero), [], actions);
  }
}
