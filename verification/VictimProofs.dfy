/** Whom preemption chooses: the two implementations of victim selection agree, and what is recorded
    about a victim. */
module VictimProofs {
  import opened Common
  import opened Tensors
  import opened Decoders
  import opened Paging
  import opened PagingProofs
  import opened Arenas
  import opened ArenaProofs
  import opened Requests
  import opened Scheduling
  import X = ExecutionProofs
  import opened LifecycleProofs
  import opened EngineProofs
  import opened PreemptionProofs
  import opened Swaps

  /** The blocks the newest `j` hold between them. */
  function HeldByNewest(candidates: seq<(Id, nat)>, j: nat): nat
    requires j <= |candidates|
  {
    if j == 0 then 0
    else candidates[|candidates| - 1].1 + HeldByNewest(candidates[..|candidates| - 1], j - 1)
  }

  /** The newest `k`, newest first. */
  function Newest(candidates: seq<(Id, nat)>, k: nat): (r: seq<Id>)
    requires k <= |candidates|
    ensures |r| == k && forall i :: 0 <= i < k ==> r[i] == candidates[|candidates| - 1 - i].0
  {
    seq(k, i requires 0 <= i < k => candidates[|candidates| - 1 - i].0)
  }

  lemma NewestPush(candidates: seq<(Id, nat)>, k: nat)
    requires k < |candidates|
    ensures var n := |candidates| - 1; Newest(candidates, k + 1) == [candidates[n].0] + Newest(candidates[..n], k)
  {
  }

  /** The victims are the newest `k`, newest first, for the smallest `k` whose blocks cover the need,
      or all of them when nothing does. */
  lemma {:induction false} SelectsFewest(candidates: seq<(Id, nat)>, needed: int, freed: nat) returns (k: nat)
    ensures k <= |candidates|
    ensures SelectFrom(candidates, needed, freed) == Newest(candidates, k)
    ensures k == |candidates| || freed + HeldByNewest(candidates, k) >= needed
    ensures forall j :: 0 <= j < k ==> freed + HeldByNewest(candidates, j) < needed
    decreases |candidates|
  {
    hide Newest;
    var n := |candidates|;
    if candidates == [] || freed >= needed {
      k := 0;
    } else {
      var last := candidates[n - 1];
      var init := candidates[..n - 1];
      var k1 := SelectsFewest(init, needed, freed + last.1);
      k := k1 + 1;
      NewestPush(candidates, k1);
      assert HeldByNewest(candidates, k) == last.1 + HeldByNewest(init, k1);
      assert forall j :: 0 <= j < k1 ==> freed + last.1 + HeldByNewest(init, j) < needed;
      forall j | 0 <= j < k ensures freed + HeldByNewest(candidates, j) < needed {
        if j > 0 {
          assert HeldByNewest(candidates, j) == last.1 + HeldByNewest(init, j - 1);
        }
      }
    }
  }

  // ------------------------------------------------------- the scheduler's loop and the preemptor's

  ghost function BlocksOf(sys: Sys, id: Id): nat {
    match At(sys.reqs, id).cache
    case None => 0
    case Some(c) => if c < |sys.arena.caches| then |sys.arena.caches[c].table.blocks| else 0
  }

  ghost function Holdings(sys: Sys, ids: seq<Id>): (r: seq<(Id, nat)>)
    ensures |r| == |ids| && forall i :: 0 <= i < |ids| ==> r[i] == (ids[i], BlocksOf(sys, ids[i]))
  {
    seq(|ids|, i requires 0 <= i < |ids| => (ids[i], BlocksOf(sys, ids[i])))
  }

  lemma ReleaseFreesAll(a: Arena, hs: seq<Hist>, kvOf: Oracle, cache: Option<nat>)
    requires Inv(a, hs, kvOf) && Unshared(AllHeld(a)) && (cache.Some? ==> cache.value < |a.caches|)
    ensures Unshared(AllHeld(Release(a, cache)))
    ensures |Release(a, cache).store.pool.free| == |a.store.pool.free| + if cache.Some? then |a.caches[cache.value].table.blocks| else 0
  {
    hide Inv, AllHeld, Unshared, Do;
    InvSizes(a, hs, kvOf);
    if cache.Some? {
      FreeRoom(a, hs, cache.value, kvOf);
    }
  }

  lemma SameHoldings(sys: Sys, hs: seq<Hist>, kvOf: Oracle, hs1: seq<Hist>, id: Id, ids: seq<Id>)
    requires Live(sys, hs, kvOf) && id in sys.running && Evicted(sys, hs, PreemptOne(sys, id), hs1, [id])
    requires forall j :: j in ids ==> j in sys.running && j != id
    ensures Holdings(PreemptOne(sys, id), ids) == Holdings(sys, ids)
  {
    hide Inv, PreemptOne;
    var sys1 := PreemptOne(sys, id);
    LiveAt(sys, hs, kvOf, id);
    LostOne(sys, id);
    forall j | j in ids ensures BlocksOf(sys1, j) == BlocksOf(sys, j) {
      assert j in sys.running && j in sys.reqs && j !in [id] && sys1.reqs[j] == sys.reqs[j];
      if sys.reqs[j].cache.Some? {
        assert sys.reqs[j].cache != sys.reqs[id].cache;
        assert !Lost(sys, [id], sys.reqs[j].cache.value);
      }
    }
  }

  lemma {:induction false} LoopSelects(sys: Sys, hs: seq<Hist>, kvOf: Oracle, candidates: seq<Id>, needed: int, victims: seq<Id>, toFree: int, freed: nat)
    requires Live(sys, hs, kvOf) && Unshared(AllHeld(sys.arena))
    requires Distinct(candidates) && forall id :: id in candidates ==> id in sys.running
    requires toFree - freed == needed - NumFree(sys)
    ensures PreemptLoop(sys, Reverse(candidates), needed, victims).1 == victims + SelectFrom(Holdings(sys, candidates), toFree, freed)
    decreases |candidates|
  {
    hide Live, Inv, PreemptOne, Evicted, AllHeld, Unshared, BlocksOf, Reverse, Holdings;
    var newestFirst := Reverse(candidates);
    if candidates == [] || NumFree(sys) >= needed {
      assert victims + [] == victims;
    } else {
      var n := |candidates| - 1;
      var id, rest := candidates[n], candidates[..n];
      assert id in candidates && candidates == rest + [id] && id !in rest;
      var sys1 := PreemptOne(sys, id);
      OneFrees(sys, hs, kvOf, id);
      var hs1 := PreemptOneKeeps(sys, hs, kvOf, id);
      SameHoldings(sys, hs, kvOf, hs1, id, rest);
      LiveFacts(sys, hs, kvOf);
      StillRunning(sys, hs, sys1, hs1, id, rest);
      LoopSelects(sys1, hs1, kvOf, rest, needed, victims + [id], toFree, freed + BlocksOf(sys, id));
      ReverseTail(candidates);
      var held := Holdings(sys, candidates);
      HoldingsInit(sys, candidates);
      assert victims + ([id] + SelectFrom(held[..n], toFree, freed + held[n].1)) == (victims + [id]) + SelectFrom(held[..n], toFree, freed + held[n].1);
    }
  }

  lemma {:induction false} ReverseTail(ids: seq<Id>)
    requires ids != []
    ensures Reverse(ids) == [ids[|ids| - 1]] + Reverse(ids[..|ids| - 1])
  {
    var n := |ids| - 1;
    if n > 0 {
      ReverseTail(ids[1..]);
      assert ids[..n][1..] == ids[1..][..n - 1];
      assert Reverse(ids) == Reverse(ids[1..]) + [ids[0]];
    }
  }

  lemma HoldingsInit(sys: Sys, ids: seq<Id>)
    requires ids != []
    ensures var n := |ids| - 1; Holdings(sys, ids)[..n] == Holdings(sys, ids[..n]) && Holdings(sys, ids)[n] == (ids[n], BlocksOf(sys, ids[n]))
  {
    hide BlocksOf;
  }

  lemma OneFrees(sys: Sys, hs: seq<Hist>, kvOf: Oracle, id: Id)
    requires Live(sys, hs, kvOf) && Unshared(AllHeld(sys.arena)) && id in sys.running
    ensures NumFree(PreemptOne(sys, id)) == NumFree(sys) + BlocksOf(sys, id) && Unshared(AllHeld(PreemptOne(sys, id).arena))
  {
    hide Live, Inv, AllHeld, Unshared, Release;
    LiveAt(sys, hs, kvOf, id);
    ReleaseFreesAll(sys.arena, hs, kvOf, sys.reqs[id].cache);
  }

  /** Without sharing, counting what victims hold and watching the free list come to the same: the
      scheduler preempts exactly those the preemptor would select for the blocks that are missing. */
  lemma VictimsAgree(sys: Sys, hs: seq<Hist>, kvOf: Oracle, needed: int)
    requires Queues(sys) && Live(sys, hs, kvOf) && Unshared(AllHeld(sys.arena))
    ensures PreemptToFree(sys, needed).1 == SelectFrom(Holdings(sys, Candidates(sys, sys.running)), needed - NumFree(sys), 0)
  {
    hide Live, Queues, PreemptLoop, Reverse, SelectFrom;
    QueuesDistinct(sys);
    var candidates := Candidates(sys, sys.running);
    CandidatesIn(sys, sys.running);
    LoopSelects(sys, hs, kvOf, candidates, needed, [], needed - NumFree(sys), 0);
  }

  // ------------------------------------------------------------------------- what is recorded

  /** Preemption records `total_tokens` as the parked length. Between steps a running request's cache
      always holds less than that: the parked length is never the cache's. */
  lemma RecordsTooMuch(d: Decoder, cfg: Config, r: Request, a: Arena)
    requires RunOk(d, cfg.eos, r) && CacheLength(d, r, a)
    ensures X.Held(a, r) < |r.prompt| + |r.gen|
  {
    hide Greedy;
  }
}
