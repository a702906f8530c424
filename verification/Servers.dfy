/** The serving objects (edgerag/sched/scheduler.py, edgerag/serve/executor.py, edgerag/serve/engine.py)
    with their loops, each method proved to make exactly the transition the whole-run theorems are
    about. `Heap` is what they share: the request objects and the block arena. */
module Servers {
  import opened Common
  import opened Tensors
  import opened Decoders
  import opened Arenas
  import opened Requests
  import opened Scheduling
  import opened Serving
  import opened EngineRuns

  class Heap {
    var reqs: map<Id, Request>
    var arena: Arena

    constructor (arena: Arena)
      ensures this.reqs == map[] && this.arena == arena
    {
      this.reqs, this.arena := map[], arena;
    }
  }

  class Scheduler {
    const cfg: Config
    const heap: Heap
    var waiting: seq<Id>
    var running: seq<Id>
    var finished: seq<Id>

    constructor (cfg: Config, heap: Heap)
      ensures this.cfg == cfg && this.heap == heap && waiting == running == finished == []
    {
      this.cfg, this.heap := cfg, heap;
      waiting, running, finished := [], [], [];
    }

    function View(): Sys
      reads this, heap
    {
      Sys(heap.reqs, waiting, running, finished, heap.arena)
    }

    method AddRequest(r: Request)
      modifies this, heap
      ensures View() == Scheduling.AddRequest(old(View()), r)
    {
      heap.reqs := heap.reqs[r.id := r.(state := Waiting)];
      waiting := waiting + [r.id];
    }

    /** The first loop of `schedule`. */
    method PickRunning() returns (b: Batch)
      ensures b == Pick(cfg, heap.reqs, running, Batch([], []))
    {
      b := Batch([], []);
      assert running[0..] == running;
      var i := 0;
      while i < |running|
        invariant 0 <= i <= |running|
        invariant Pick(cfg, heap.reqs, running[i..], b) == Pick(cfg, heap.reqs, running, Batch([], []))
      {
        assert running[i..][0] == running[i] && running[i..][1..] == running[i + 1..];
        var r := At(heap.reqs, running[i]);
        if r.state == Decoding {
          b := b.(decode := b.decode + [running[i]]);
        } else if r.state == Prefilling && |b.prefill| < cfg.maxPrefills {
          b := b.(prefill := b.prefill + [running[i]]);
        }
        i := i + 1;
      }
    }

    method Schedule() returns (b: Batch)
      modifies this, heap
      ensures (View(), b) == Scheduling.Schedule(cfg, old(View()))
    {
      hide Pick, Needed;
      b := PickRunning();
      ghost var picked := b;
      while waiting != [] && |running| < cfg.maxBatch && |b.prefill| < cfg.maxPrefills
        invariant Admit(cfg, View(), b) == Admit(cfg, old(View()), picked)
        decreases |waiting|
      {
        var id := waiting[0];
        var r := At(heap.reqs, id);
        if Needed(View(), r) > Available(cfg, View()) {
          break;
        }
        waiting := waiting[1..];
        heap.reqs := heap.reqs[id := r.(state := Prefilling)];
        running := running + [id];
        b := b.(prefill := b.prefill + [id]);
      }
    }

    method OnPrefillChunk(id: Id, n: nat) returns (r: Result<()>)
      modifies heap
      ensures match Scheduling.OnPrefillChunk(old(View()), id, n)
        case Ok(sys) => r.Ok? && View() == sys
        case Err(e) => r == Err(e) && View() == old(View())
    {
      var advanced := AdvancePrefill(At(heap.reqs, id), n);
      if advanced.Err? {
        return Err(advanced.error);
      }
      var q := advanced.value;
      if PrefillDone(q) {
        q := q.(state := Decoding);
      }
      heap.reqs := heap.reqs[id := q];
      return Ok(());
    }

    method Finish(id: Id)
      modifies this, heap
      ensures View() == Scheduling.Finish(old(View()), id)
    {
      var r := At(heap.reqs, id);
      heap.reqs := heap.reqs[id := r.(state := Finished)];
      if r.cache.Some? {
        heap.arena := Release(heap.arena, r.cache);
        heap.reqs := heap.reqs[id := r.(state := Finished, cache := None)];
      }
      running := Remove(running, id);
      finished := finished + [id];
      assert heap.reqs == old(heap.reqs)[id := r.(state := Finished, cache := None)];
    }

    method OnToken(id: Id, token: Token)
      modifies this, heap
      ensures View() == Scheduling.OnToken(cfg, old(View()), id, token)
      ensures var r := old(At(heap.reqs, id));
        finished == old(finished) + if |r.gen| + 1 >= r.maxNew || Some(token) == cfg.eos then [id] else []
    {
      var r := At(heap.reqs, id);
      r := r.(gen := r.gen + [token]);
      heap.reqs := heap.reqs[id := r];
      if ShouldStop(r, cfg.eos) {
        Finish(id);
      }
    }

    method Reject(id: Id)
      modifies this, heap
      ensures View() == Scheduling.Reject(old(View()), id)
    {
      heap.reqs := heap.reqs[id := At(heap.reqs, id).(state := Rejected)];
      waiting := Remove(waiting, id);
      finished := finished + [id];
    }

    method PreemptOne(id: Id)
      modifies this, heap
      ensures View() == Scheduling.PreemptOne(old(View()), id)
    {
      var r := At(heap.reqs, id);
      heap.arena := Release(heap.arena, r.cache);
      heap.reqs := heap.reqs[id := r.(state := Waiting, cache := None, offset := 0, preemptions := r.preemptions + 1)];
      running := Remove(running, id);
    }

    method PreemptToFree(needed: int) returns (victims: seq<Id>)
      modifies this, heap
      ensures (View(), victims) == Scheduling.PreemptToFree(old(View()), needed)
    {
      hide Scheduling.PreemptOne, Candidates, Reverse;
      var newestFirst := Reverse(Candidates(View(), running));
      victims := [];
      assert newestFirst[0..] == newestFirst;
      ghost var all := PreemptLoop(View(), newestFirst, needed, []);
      var i := 0;
      while i < |newestFirst|
        invariant 0 <= i <= |newestFirst|
        invariant PreemptLoop(View(), newestFirst[i..], needed, victims) == all
      {
        assert newestFirst[i..][0] == newestFirst[i] && newestFirst[i..][1..] == newestFirst[i + 1..];
        if |heap.arena.store.pool.free| >= needed {
          break;
        }
        victims := victims + [newestFirst[i]];
        PreemptOne(newestFirst[i]);
        i := i + 1;
      }
      ghost var after := View();
      assert all == (after, victims);
      var j := |victims|;
      assert victims[j..] + after.waiting == after.waiting;
      while j > 0
        invariant 0 <= j <= |victims|
        invariant View() == after.(waiting := victims[j..] + after.waiting)
      {
        j := j - 1;
        waiting := [victims[j]] + waiting;
        assert victims[j..] == [victims[j]] + victims[j + 1..];
      }
      assert victims[0..] == victims;
    }

    method TryAllocate(id: Id, n: nat) returns (r: Result<bool>)
      modifies this, heap
      ensures (View(), r) == Scheduling.TryAllocate(old(View()), id, n)
    {
      hide Call, Scheduling.PreemptToFree, CeilDiv;
      var cache := At(heap.reqs, id).cache;
      if cache.None? {
        return Ok(false);
      }
      var c := cache.value;
      if c >= |heap.arena.caches| || heap.arena.store.pool.blockSize == 0 {
        return Err(IndexError);
      }
      var target := heap.arena.caches[c].table.numTokens + n;
      var first := Call(heap.arena, Ensure(c, target));
      if first.result.Ok? {
        heap.arena := first.arena;
        return Ok(true);
      }
      var victims := PreemptToFree(CeilDiv(target, heap.arena.store.pool.blockSize));
      cache := At(heap.reqs, id).cache;
      if cache.None? {
        return Err(AttributeFault);
      }
      var second := Call(heap.arena, Ensure(cache.value, TokensIn(heap.arena, cache.value) + n));
      heap.arena := second.arena;
      return Ok(second.result.Ok?);
    }
  }

  class ModelExecutor {
    const d: Decoder
    const chunk: nat
    const heap: Heap

    constructor (d: Decoder, chunk: nat, heap: Heap)
      ensures this.d == d && this.chunk == chunk && this.heap == heap
    {
      this.d, this.chunk, this.heap := d, chunk, heap;
    }

    /** The decoder's loop over layers, and what follows it. */
    method Forward(c: nat, past: nat, inputs: seq<Hidden>, fuel: nat) returns (f: Passed)
      modifies heap
      ensures f == PagedForward(d, old(heap.arena), c, past, inputs, 0, fuel)
      ensures heap.arena == f.arena && heap.reqs == old(heap.reqs)
    {
      hide Call, ChunkKV, ChunkAttend;
      var hidden, left, l := inputs, fuel, 0;
      while l < d.layers
        invariant 0 <= l <= d.layers && heap.reqs == old(heap.reqs)
        invariant PagedForward(d, heap.arena, c, past, hidden, l, left) == PagedForward(d, old(heap.arena), c, past, inputs, 0, fuel)
      {
        if left == 0 {
          return Passed(heap.arena, hidden, left, Some(RuntimeFault));
        }
        var u := Call(heap.arena, Update(c, l, ChunkKV(d, l, past, hidden)));
        heap.arena := u.arena;
        if u.result.Err? {
          return Passed(heap.arena, hidden, left, Some(u.result.error));
        }
        hidden := ChunkAttend(d, l, past, hidden, u.result.value);
        left := left - 1;
        l := l + 1;
      }
      if left == 0 {
        return Passed(heap.arena, hidden, left, Some(RuntimeFault));
      }
      return Passed(heap.arena, hidden, left - 1, None);
    }

    method FeedCache(c: nat, inputs: seq<Hidden>, fuel: nat) returns (f: Passed)
      modifies heap
      ensures f == Feed(d, old(heap.arena), c, inputs, fuel)
      ensures heap.arena == f.arena && heap.reqs == old(heap.reqs)
    {
      hide Call, PagedForward;
      var past := TokensIn(heap.arena, c);
      var grown := Call(heap.arena, Ensure(c, past + |inputs|));
      heap.arena := grown.arena;
      if grown.result.Err? {
        return Passed(heap.arena, inputs, fuel, Some(grown.result.error));
      }
      f := Forward(c, past, inputs, fuel);
    }

    /** `_cache_for`. */
    method CacheOf(id: Id, ghost e: Exec)
      requires e.reqs == heap.reqs && e.arena == heap.arena
      modifies heap
      ensures heap.reqs == CacheFor(e, id).reqs && heap.arena == CacheFor(e, id).arena
    {
      hide Call;
      var r := At(heap.reqs, id);
      if r.cache.None? {
        heap.reqs := heap.reqs[id := r.(cache := Some(|heap.arena.caches|))];
        heap.arena := Call(heap.arena, New(0)).arena;
      }
    }

    /** One prefill chunk of the batch. */
    method Prefill(id: Id, out: Output, fuel: nat) returns (e: Exec)
      modifies heap
      ensures e == ExecPrefill(d, chunk, Exec(old(heap.reqs), old(heap.arena), out, fuel, None), id)
      ensures heap.reqs == e.reqs && heap.arena == e.arena
    {
      hide Feed, CacheFor, PromptInputs;
      CacheOf(id, Exec(heap.reqs, heap.arena, out, fuel, None));
      e := Exec(heap.reqs, heap.arena, out, fuel, None);
      assert e == CacheFor(Exec(old(heap.reqs), old(heap.arena), out, fuel, None), id) by {
        SameRest(Exec(old(heap.reqs), old(heap.arena), out, fuel, None), id);
      }
      var r := At(heap.reqs, id);
      var end := Min(r.offset + chunk, |r.prompt|);
      var n := end - r.offset;
      if n <= 0 || r.cache.None? {
        return;
      }
      var f := FeedCache(r.cache.value, Slice(PromptInputs(d, r), r.offset, end), fuel);
      if f.error.Some? {
        e := e.(arena := f.arena, fuel := f.fuel, error := f.error);
        return;
      }
      var out1 := out.(prefilled := out.prefilled[id := n]);
      if end >= |r.prompt| && f.hidden != [] {
        out1 := out1.(tokens := out1.tokens[id := d.pick(Last(f.hidden))]);
      }
      e := e.(arena := f.arena, fuel := f.fuel, out := out1);
    }

    lemma SameRest(e: Exec, id: Id)
      ensures var e1 := CacheFor(e, id); e1 == e.(reqs := e1.reqs, arena := e1.arena)
    {
    }

    /** One decode step of the batch. */
    method Decode(id: Id, out: Output, fuel: nat) returns (e: Exec)
      modifies heap
      ensures e == ExecDecode(d, Exec(old(heap.reqs), old(heap.arena), out, fuel, None), id)
      ensures heap.reqs == e.reqs && heap.arena == e.arena
    {
      hide Feed, CacheFor;
      CacheOf(id, Exec(heap.reqs, heap.arena, out, fuel, None));
      e := Exec(heap.reqs, heap.arena, out, fuel, None);
      assert e == CacheFor(Exec(old(heap.reqs), old(heap.arena), out, fuel, None), id) by {
        SameRest(Exec(old(heap.reqs), old(heap.arena), out, fuel, None), id);
      }
      var r := At(heap.reqs, id);
      if r.gen == [] || r.cache.None? {
        e := e.(error := Some(NoToken));
        return;
      }
      var f := FeedCache(r.cache.value, [d.embed(r.gen[|r.gen| - 1])], fuel);
      if f.error.Some? || f.hidden == [] {
        e := e.(arena := f.arena, fuel := f.fuel, error := if f.error.Some? then f.error else Some(RuntimeFault));
        return;
      }
      e := e.(arena := f.arena, fuel := f.fuel, out := out.(tokens := out.tokens[id := d.pick(Last(f.hidden))]));
    }

    lemma {:induction false} Stuck(e: Exec, prefill: seq<Id>, decode: seq<Id>)
      requires e.error.Some?
      ensures ExecPrefills(d, chunk, e, prefill) == e && ExecDecodes(d, e, decode) == e
      decreases |prefill| + |decode|
    {
      if prefill != [] {
        Stuck(e, prefill[1..], decode);
      } else if decode != [] {
        Stuck(e, prefill, decode[1..]);
      }
    }

    /** `execute`: an exception leaves the loops at once, with whatever has been written. */
    method Execute(b: Batch, fuel: nat) returns (e: Exec)
      modifies heap
      ensures e == ExecDecodes(d, ExecPrefills(d, chunk, Exec(old(heap.reqs), old(heap.arena), Output(map[], map[]), fuel, None), b.prefill), b.decode)
      ensures heap.reqs == e.reqs && heap.arena == e.arena
    {
      hide ExecPrefill, ExecDecode;
      e := Exec(heap.reqs, heap.arena, Output(map[], map[]), fuel, None);
      ghost var all := ExecPrefills(d, chunk, e, b.prefill);
      assert b.prefill[0..] == b.prefill && b.decode[0..] == b.decode;
      var i := 0;
      while i < |b.prefill|
        invariant 0 <= i <= |b.prefill| && e.error.None?
        invariant heap.reqs == e.reqs && heap.arena == e.arena
        invariant ExecPrefills(d, chunk, e, b.prefill[i..]) == all
      {
        assert b.prefill[i..][0] == b.prefill[i] && b.prefill[i..][1..] == b.prefill[i + 1..];
        e := Prefill(b.prefill[i], e.out, e.fuel);
        if e.error.Some? {
          Stuck(e, b.prefill[i + 1..], b.decode);
          return;
        }
        i := i + 1;
      }
      ghost var done := ExecDecodes(d, e, b.decode);
      var j := 0;
      while j < |b.decode|
        invariant 0 <= j <= |b.decode| && e.error.None?
        invariant heap.reqs == e.reqs && heap.arena == e.arena
        invariant ExecDecodes(d, e, b.decode[j..]) == done
      {
        assert b.decode[j..][0] == b.decode[j] && b.decode[j..][1..] == b.decode[j + 1..];
        e := Decode(b.decode[j], e.out, e.fuel);
        if e.error.Some? {
          Stuck(e, [], b.decode[j + 1..]);
          return;
        }
        j := j + 1;
      }
    }
  }
}
