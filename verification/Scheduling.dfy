/** The continuous-batching scheduler as functions on values (edgerag/sched/scheduler.py).

    `reqs` is the heap of request objects; queues and batches hold references into it, as ids. */
module Scheduling {
  import opened Common
  import opened Tensors
  import opened Requests
  import opened Paging
  import opened Arenas
  import P = Pools

  datatype Config = Config(maxBatch: nat, reserve: nat, maxPrefills: nat, eos: Option<Token>, chunk: nat)

  datatype Sys = Sys(reqs: map<Id, Request>, waiting: seq<Id>, running: seq<Id>, finished: seq<Id>, arena: Arena)

  datatype Batch = Batch(prefill: seq<Id>, decode: seq<Id>)

  const NOBODY := Request(0, [], None, 0, Waiting, 0, [], None, 0)

  /** Dereferencing; every id a queue holds is in the heap, see `Lifecycle`. */
  function At(reqs: map<Id, Request>, id: Id): Request {
    if id in reqs then reqs[id] else NOBODY
  }

  function Remove(ids: seq<Id>, id: Id): seq<Id> {
    if ids == [] then [] else if ids[0] == id then ids[1..] else [ids[0]] + Remove(ids[1..], id)
  }

  function NumFree(sys: Sys): nat {
    |sys.arena.store.pool.free|
  }

  function Needed(sys: Sys, r: Request): nat {
    var bs := sys.arena.store.pool.blockSize;
    if bs > 0 then CeilDiv(|r.prompt| + r.maxNew, bs) else 0
  }

  function Available(cfg: Config, sys: Sys): nat {
    Max(0, NumFree(sys) - cfg.reserve)
  }

  function AddRequest(sys: Sys, r: Request): Sys {
    sys.(reqs := sys.reqs[r.id := r.(state := Waiting)], waiting := sys.waiting + [r.id])
  }

  // -------------------------------------------------------------------------- the decision

  /** The first loop of `schedule`: decoding requests, and prefilling ones up to the limit. */
  function Pick(cfg: Config, reqs: map<Id, Request>, ids: seq<Id>, b: Batch): Batch
    decreases |ids|
  {
    if ids == [] then b
    else
      var r := At(reqs, ids[0]);
      var b' :=
        if r.state == Decoding then b.(decode := b.decode + [ids[0]])
        else if r.state == Prefilling && |b.prefill| < cfg.maxPrefills then b.(prefill := b.prefill + [ids[0]])
        else b;
      Pick(cfg, reqs, ids[1..], b')
  }

  /** The second: admission from the head of the queue while the final size fits. */
  function Admit(cfg: Config, sys: Sys, b: Batch): (Sys, Batch)
    decreases |sys.waiting|
  {
    if sys.waiting == [] || |sys.running| >= cfg.maxBatch || |b.prefill| >= cfg.maxPrefills then (sys, b)
    else
      var id := sys.waiting[0];
      var r := At(sys.reqs, id);
      if Needed(sys, r) > Available(cfg, sys) then (sys, b)
      else
        var sys' := sys.(
          waiting := sys.waiting[1..],
          reqs := sys.reqs[id := r.(state := Prefilling)],
          running := sys.running + [id]);
        Admit(cfg, sys', b.(prefill := b.prefill + [id]))
  }

  function Schedule(cfg: Config, sys: Sys): (Sys, Batch) {
    Admit(cfg, sys, Pick(cfg, sys.reqs, sys.running, Batch([], [])))
  }

  // ---------------------------------------------------------------------------- bookkeeping

  function Release(a: Arena, cache: Option<nat>): Arena {
    match cache
    case None => a
    case Some(c) => Call(a, Free(c)).arena
  }

  function Finish(sys: Sys, id: Id): Sys {
    var r := At(sys.reqs, id);
    sys.(
      arena := Release(sys.arena, r.cache),
      reqs := sys.reqs[id := r.(state := Finished, cache := None)],
      running := Remove(sys.running, id),
      finished := sys.finished + [id])
  }

  function OnPrefillChunk(sys: Sys, id: Id, n: nat): Result<Sys> {
    match AdvancePrefill(At(sys.reqs, id), n)
    case Err(e) => Err(e)
    case Ok(r) => Ok(sys.(reqs := sys.reqs[id := if PrefillDone(r) then r.(state := Decoding) else r]))
  }

  function OnToken(cfg: Config, sys: Sys, id: Id, token: Token): Sys {
    var r := At(sys.reqs, id);
    var r' := r.(gen := r.gen + [token]);
    var sys' := sys.(reqs := sys.reqs[id := r']);
    if ShouldStop(r', cfg.eos) then Finish(sys', id) else sys'
  }

  function Reject(sys: Sys, id: Id): Sys {
    var r := At(sys.reqs, id);
    sys.(
      reqs := sys.reqs[id := r.(state := Rejected)],
      waiting := Remove(sys.waiting, id),
      finished := sys.finished + [id])
  }

  // ------------------------------------------------------------------------------- pressure

  /** Swap or not, the victim's blocks go back and it will prefill again from the start; what it has
      generated stays. */
  function PreemptOne(sys: Sys, id: Id): Sys {
    var r := At(sys.reqs, id);
    sys.(
      arena := Release(sys.arena, r.cache),
      reqs := sys.reqs[id := r.(state := Waiting, cache := None, offset := 0, preemptions := r.preemptions + 1)],
      running := Remove(sys.running, id))
  }

  function Candidates(sys: Sys, ids: seq<Id>): seq<Id> {
    if ids == [] then []
    else (if Preemptable(At(sys.reqs, ids[0])) then [ids[0]] else []) + Candidates(sys, ids[1..])
  }

  function Reverse(ids: seq<Id>): (r: seq<Id>)
    ensures |r| == |ids|
    ensures forall k :: 0 <= k < |ids| ==> r[k] == ids[|ids| - 1 - k]
  {
    if ids == [] then [] else Reverse(ids[1..]) + [ids[0]]
  }

  /** The loop over the reversed candidates; the second component is the victims, newest first. */
  function PreemptLoop(sys: Sys, newestFirst: seq<Id>, needed: int, victims: seq<Id>): (Sys, seq<Id>)
    decreases |newestFirst|
  {
    if newestFirst == [] || NumFree(sys) >= needed then (sys, victims)
    else PreemptLoop(PreemptOne(sys, newestFirst[0]), newestFirst[1..], needed, victims + [newestFirst[0]])
  }

  function PreemptToFree(sys: Sys, needed: int): (Sys, seq<Id>) {
    var (after, victims) := PreemptLoop(sys, Reverse(Candidates(sys, sys.running)), needed, []);
    (after.(waiting := victims + after.waiting), victims)
  }

  /** Growing a request's cache, preempting if that is what it takes. The request itself is among the
      candidates; when it loses its cache, the retry dereferences `None`. */
  function TryAllocate(sys: Sys, id: Id, n: nat): (Sys, Result<bool>) {
    match At(sys.reqs, id).cache
    case None => (sys, Ok(false))
    case Some(c) =>
      if c >= |sys.arena.caches| || sys.arena.store.pool.blockSize == 0 then (sys, Err(IndexError))
      else
        var target := sys.arena.caches[c].table.numTokens + n;
        var first := Call(sys.arena, Ensure(c, target));
        if first.result.Ok? then (sys.(arena := first.arena), Ok(true))
        else
          var (after, _) := PreemptToFree(sys, CeilDiv(target, sys.arena.store.pool.blockSize));
          match At(after.reqs, id).cache
          case None => (after, Err(AttributeFault))
          case Some(c') =>
            var second := Call(after.arena, Ensure(c', TokensIn(after.arena, c') + n));
            (after.(arena := second.arena), Ok(second.result.Ok?))
  }

  function TokensIn(a: Arena, c: nat): nat {
    if c < |a.caches| then a.caches[c].table.numTokens else 0
  }
}
