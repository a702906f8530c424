/** Preemption (edgerag/sched/scheduler.py, `preempt_to_free` and `try_allocate`), over an arena that
    other sequences, forks and cached prefixes share. */
module PreemptionProofs {
  import opened Common
  import opened Tensors
  import opened Paging
  import opened PagingProofs
  import opened Arenas
  import opened ArenaProofs
  import opened Requests
  import opened Scheduling
  import opened LifecycleProofs
  import P = Pools

  /** Preempting these, one after another. */
  function PreemptMany(sys: Sys, ids: seq<Id>): Sys
    decreases |ids|
  {
    if ids == [] then sys else PreemptMany(PreemptOne(sys, ids[0]), ids[1..])
  }

  function Without(ids: seq<Id>, gone: seq<Id>): seq<Id> {
    if ids == [] then [] else (if ids[0] in gone then [] else [ids[0]]) + Without(ids[1..], gone)
  }

  function Sent(r: Request): Request {
    r.(state := Waiting, cache := None, offset := 0, preemptions := r.preemptions + 1)
  }

  /** Running requests are in the heap, once each, and no two of them share a cache. */
  ghost predicate Live(sys: Sys, hs: seq<Hist>, kvOf: Oracle) {
    && Inv(sys.arena, hs, kvOf) && Distinct(sys.running)
    && (forall id :: id in sys.running ==> id in sys.reqs && (sys.reqs[id].cache.Some? ==> sys.reqs[id].cache.value < |sys.arena.caches|))
    && (forall i, j :: i in sys.running && j in sys.running && i != j && i in sys.reqs && j in sys.reqs && sys.reqs[i].cache.Some? ==>
          sys.reqs[i].cache != sys.reqs[j].cache)
  }

  ghost predicate Lost(sys: Sys, gone: seq<Id>, c: nat) {
    exists id :: id in gone && id in sys.reqs && sys.reqs[id].cache == Some(c)
  }

  /** What preempting `gone` did: each lost its cache and its prefill progress and kept what it had
      generated; everybody else, and everybody else's history, is as before. */
  ghost predicate Evicted(sys: Sys, hs: seq<Hist>, sys': Sys, hs': seq<Hist>, gone: seq<Id>) {
    && sys' == sys.(reqs := sys'.reqs, arena := sys'.arena, running := Without(sys.running, gone))
    && sys'.reqs.Keys == sys.reqs.Keys
    && (forall id :: id in sys.reqs ==> sys'.reqs[id] == if id in gone then Sent(sys.reqs[id]) else sys.reqs[id])
    && |sys'.arena.caches| == |sys.arena.caches| && |hs'| == |hs| == |sys.arena.caches|
    && sys'.arena.entries == sys.arena.entries
    && (forall c :: 0 <= c < |hs| ==>
          if Lost(sys, gone, c) then sys'.arena.caches[c].table == EMPTY_TABLE
          else sys'.arena.caches[c] == sys.arena.caches[c] && hs'[c] == hs[c])
  }

  // ------------------------------------------------------------------------------ one victim

  lemma {:induction false} WithoutNone(ids: seq<Id>, gone: seq<Id>)
    requires forall x :: x in gone ==> x !in ids
    ensures Without(ids, gone) == ids
  {
    if ids != [] {
      assert ids[0] in ids && forall x :: x in ids[1..] ==> x in ids;
      WithoutNone(ids[1..], gone);
    }
  }

  /** Removing one and then the rest is removing them all. */
  lemma {:induction false} WithoutRemove(ids: seq<Id>, id: Id, gone: seq<Id>)
    requires Distinct(ids)
    ensures Without(Remove(ids, id), gone) == Without(ids, [id] + gone)
  {
    if ids != [] {
      if ids[0] == id {
        assert forall x :: x in [id] + gone <==> x == id || x in gone;
        SkipAbsent(ids[1..], id, gone);
      } else {
        assert Remove(ids, id)[1..] == Remove(ids[1..], id);
        WithoutRemove(ids[1..], id, gone);
      }
    }
  }

  lemma {:induction false} SkipAbsent(ids: seq<Id>, id: Id, gone: seq<Id>)
    requires id !in ids
    ensures Without(ids, [id] + gone) == Without(ids, gone)
  {
    if ids != [] {
      assert ids[0] != id && id !in ids[1..];
      SkipAbsent(ids[1..], id, gone);
    }
  }

  lemma {:induction false} WithoutIn(ids: seq<Id>, gone: seq<Id>)
    requires Distinct(ids)
    ensures Distinct(Without(ids, gone))
    ensures forall x :: x in Without(ids, gone) <==> x in ids && x !in gone
  {
    if ids != [] {
      WithoutIn(ids[1..], gone);
      assert ids == [ids[0]] + ids[1..] && ids[0] !in ids[1..];
    }
  }

  lemma ReleaseKeeps(a: Arena, hs: seq<Hist>, kvOf: Oracle, cache: Option<nat>) returns (hs': seq<Hist>)
    requires Inv(a, hs, kvOf) && (cache.Some? ==> cache.value < |a.caches|)
    ensures var a' := Release(a, cache);
      && Inv(a', hs', kvOf) && |a'.caches| == |a.caches| == |hs| == |hs'| && a'.entries == a.entries
      && forall c :: 0 <= c < |hs| ==>
           if cache == Some(c) then a'.caches[c].table == EMPTY_TABLE
           else a'.caches[c] == a.caches[c] && hs'[c] == hs[c]
  {
    hide Inv, Do;
    hs' := hs;
    InvSizes(a, hs, kvOf);
    if cache.Some? {
      FreeStep(a, hs, cache.value, kvOf);
      hs' := hs[cache.value := NoHist(|a.store.kv|)];
    }
  }

  lemma InvSizes(a: Arena, hs: seq<Hist>, kvOf: Oracle)
    requires Inv(a, hs, kvOf)
    ensures a.store.pool.blockSize > 0 && |hs| == |a.caches|
  {
  }

  lemma PreemptOneLive(sys: Sys, hs: seq<Hist>, kvOf: Oracle, id: Id, hs': seq<Hist>)
    requires Live(sys, hs, kvOf) && id in sys.running
    requires Inv(PreemptOne(sys, id).arena, hs', kvOf) && |PreemptOne(sys, id).arena.caches| == |sys.arena.caches|
    ensures Live(PreemptOne(sys, id), hs', kvOf)
  {
    hide Inv, Release;
    RemoveFacts(sys.running, id);
  }

  lemma PreemptOneKeeps(sys: Sys, hs: seq<Hist>, kvOf: Oracle, id: Id) returns (hs': seq<Hist>)
    requires Live(sys, hs, kvOf) && id in sys.running
    ensures Live(PreemptOne(sys, id), hs', kvOf) && Evicted(sys, hs, PreemptOne(sys, id), hs', [id])
  {
    hide Inv, Release, Live, Lost;
    LiveAt(sys, hs, kvOf, id);
    hs' := ReleaseKeeps(sys.arena, hs, kvOf, sys.reqs[id].cache);
    PreemptOneLive(sys, hs, kvOf, id, hs');
    WithoutRemove(sys.running, id, []);
    WithoutNone(Remove(sys.running, id), []);
    assert [id] + [] == [id];
    LostOne(sys, id);
  }

  lemma LiveAt(sys: Sys, hs: seq<Hist>, kvOf: Oracle, id: Id)
    requires Live(sys, hs, kvOf) && id in sys.running
    ensures id in sys.reqs && Inv(sys.arena, hs, kvOf) && |hs| == |sys.arena.caches| && Distinct(sys.running)
    ensures sys.reqs[id].cache.Some? ==> sys.reqs[id].cache.value < |sys.arena.caches|
  {
    InvSizes(sys.arena, hs, kvOf);
  }

  lemma LostOne(sys: Sys, id: Id)
    requires id in sys.reqs
    ensures forall c: nat :: Lost(sys, [id], c) <==> sys.reqs[id].cache == Some(c)
  {
    assert id in [id];
  }

  lemma EvictedTrans(sys: Sys, hs: seq<Hist>, sys1: Sys, hs1: seq<Hist>, sys2: Sys, hs2: seq<Hist>, id: Id, gone: seq<Id>)
    requires Distinct(sys.running) && id !in gone
    requires Evicted(sys, hs, sys1, hs1, [id]) && Evicted(sys1, hs1, sys2, hs2, gone)
    ensures Evicted(sys, hs, sys2, hs2, [id] + gone)
  {
    hide Lost, Sent;
    WithoutRemove(sys.running, id, gone);
    WithoutRemove(sys.running, id, []);
    assert [id] + [] == [id];
    WithoutNone(Remove(sys.running, id), []);
    forall c | 0 <= c < |hs| ensures Lost(sys, [id] + gone, c) <==> Lost(sys, [id], c) || Lost(sys1, gone, c) {
      LostJoin(sys, sys1, id, gone, c);
    }
    assert forall c :: 0 <= c < |hs| && Lost(sys1, gone, c) ==> sys2.arena.caches[c].table == EMPTY_TABLE;
    assert forall x :: x in [id] + gone <==> x == id || x in gone;
    assert forall x :: x in [id] <==> x == id;
  }

  lemma LostJoin(sys: Sys, sys1: Sys, id: Id, gone: seq<Id>, c: nat)
    requires id !in gone && sys1.reqs.Keys == sys.reqs.Keys
    requires forall j :: j in sys.reqs ==> sys1.reqs[j] == if j in [id] then Sent(sys.reqs[j]) else sys.reqs[j]
    ensures Lost(sys, [id] + gone, c) <==> Lost(sys, [id], c) || Lost(sys1, gone, c)
  {
    if Lost(sys, [id] + gone, c) {
      var j :| j in [id] + gone && j in sys.reqs && sys.reqs[j].cache == Some(c);
      if j == id { assert j in [id]; } else { assert j in gone && j in sys1.reqs && sys1.reqs[j].cache == Some(c); }
    }
    if Lost(sys, [id], c) {
      var j :| j in [id] && j in sys.reqs && sys.reqs[j].cache == Some(c);
      assert j in [id] + gone;
    }
    if Lost(sys1, gone, c) {
      var j :| j in gone && j in sys1.reqs && sys1.reqs[j].cache == Some(c);
      assert j in [id] + gone && j in sys.reqs && sys.reqs[j].cache == Some(c);
    }
  }

  lemma EvictedNone(sys: Sys, hs: seq<Hist>, kvOf: Oracle)
    requires Live(sys, hs, kvOf)
    ensures Evicted(sys, hs, sys, hs, [])
  {
    InvSizes(sys.arena, hs, kvOf);
    WithoutNone(sys.running, []);
  }

  lemma {:induction false} PreemptManyKeeps(sys: Sys, hs: seq<Hist>, kvOf: Oracle, ids: seq<Id>) returns (hs': seq<Hist>)
    requires Live(sys, hs, kvOf) && Distinct(ids) && forall id :: id in ids ==> id in sys.running
    ensures Live(PreemptMany(sys, ids), hs', kvOf) && Evicted(sys, hs, PreemptMany(sys, ids), hs', ids)
    decreases |ids|
  {
    hide Live, Evicted, PreemptOne;
    if ids == [] {
      hs' := hs;
      EvictedNone(sys, hs, kvOf);
    } else {
      var id, rest := ids[0], ids[1..];
      assert id in ids && ids == [id] + rest && id !in rest;
      LiveFacts(sys, hs, kvOf);
      var hs1 := PreemptOneKeeps(sys, hs, kvOf, id);
      var sys1 := PreemptOne(sys, id);
      StillRunning(sys, hs, sys1, hs1, id, rest);
      hs' := PreemptManyKeeps(sys1, hs1, kvOf, rest);
      EvictedTrans(sys, hs, sys1, hs1, PreemptMany(sys1, rest), hs', id, rest);
    }
  }

  lemma LiveFacts(sys: Sys, hs: seq<Hist>, kvOf: Oracle)
    requires Live(sys, hs, kvOf)
    ensures Distinct(sys.running)
  {
  }

  lemma StillRunning(sys: Sys, hs: seq<Hist>, sys1: Sys, hs1: seq<Hist>, id: Id, rest: seq<Id>)
    requires Distinct(sys.running) && Evicted(sys, hs, sys1, hs1, [id]) && id !in rest
    requires forall j :: j in rest ==> j in sys.running
    ensures forall j :: j in rest ==> j in sys1.running
  {
    WithoutIn(sys.running, [id]);
  }

  // ----------------------------------------------------------------------- preempting to free

  /** The loop stops at the first point where enough is free, or when nobody is left. */
  ghost predicate StopsFirst(sys: Sys, newestFirst: seq<Id>, needed: int, k: nat) {
    && k <= |newestFirst|
    && (k == |newestFirst| || NumFree(PreemptMany(sys, newestFirst[..k])) >= needed)
    && (forall j :: 0 <= j < k ==> NumFree(PreemptMany(sys, newestFirst[..j])) < needed)
  }

  lemma {:induction false} LoopStops(sys: Sys, newestFirst: seq<Id>, needed: int, victims: seq<Id>) returns (k: nat)
    ensures StopsFirst(sys, newestFirst, needed, k)
    ensures PreemptLoop(sys, newestFirst, needed, victims) == (PreemptMany(sys, newestFirst[..k]), victims + newestFirst[..k])
    decreases |newestFirst|
  {
    hide PreemptOne;
    if newestFirst == [] || NumFree(sys) >= needed {
      k := 0;
      assert victims + newestFirst[..0] == victims;
    } else {
      var id, rest := newestFirst[0], newestFirst[1..];
      var k1 := LoopStops(PreemptOne(sys, id), rest, needed, victims + [id]);
      k := k1 + 1;
      assert newestFirst[..k][1..] == rest[..k1];
      assert victims + newestFirst[..k] == victims + [id] + rest[..k1];
      forall j | 0 < j < k
        ensures PreemptMany(sys, newestFirst[..j]) == PreemptMany(PreemptOne(sys, id), rest[..j - 1])
      {
        assert newestFirst[..j][1..] == rest[..j - 1];
      }
    }
  }

  lemma {:induction false} CandidatesIn(sys: Sys, ids: seq<Id>)
    requires Distinct(ids)
    ensures Distinct(Candidates(sys, ids))
    ensures forall x :: x in Candidates(sys, ids) <==> x in ids && Preemptable(At(sys.reqs, x))
  {
    if ids != [] {
      assert ids == [ids[0]] + ids[1..] && ids[0] !in ids[1..];
      CandidatesIn(sys, ids[1..]);
    }
  }

  lemma ReverseIn(ids: seq<Id>)
    requires Distinct(ids)
    ensures Distinct(Reverse(ids)) && forall x :: x in Reverse(ids) <==> x in ids
  {
    var r := Reverse(ids);
    forall x | x in ids ensures x in r {
      var i :| 0 <= i < |ids| && ids[i] == x;
      assert r[|ids| - 1 - i] == x;
    }
  }

  lemma ReversePrefix(ids: seq<Id>, k: nat)
    requires k <= |ids|
    ensures Reverse(ids)[..k] == Reverse(ids[|ids| - k..])
  {
    hide Reverse;
    var a, b := Reverse(ids), Reverse(ids[|ids| - k..]);
    forall i | 0 <= i < k ensures a[i] == b[i] {
      assert a[i] == ids[|ids| - 1 - i];
      assert b[i] == ids[|ids| - k..][k - 1 - i];
    }
  }

  /** Preemption under sharing. The victims are a suffix of the preemptable running requests, newest
      first; the loop stops at the first point where enough blocks are free, or none is left; the
      victims go ahead of everything already waiting; and whatever the victims' blocks were shared
      with, the reference counts stay exact, nobody else's history changes, and every request is
      still in exactly one queue. */
  lemma PreemptToFreeCorrect(sys: Sys, hs: seq<Hist>, kvOf: Oracle, needed: int) returns (hs': seq<Hist>, k: nat)
    requires Queues(sys) && Live(sys, hs, kvOf)
    ensures var (sys', victims) := PreemptToFree(sys, needed);
      var candidates := Candidates(sys, sys.running);
      && (forall id :: id in candidates <==>
            id in sys.running && id in sys.reqs && (sys.reqs[id].state == Prefilling || sys.reqs[id].state == Decoding))
      && StopsFirst(sys, Reverse(candidates), needed, k)
      && victims == Reverse(candidates[|candidates| - k..])
      && sys'.arena == PreemptMany(sys, victims).arena
      && sys'.waiting == victims + sys.waiting
      && Evicted(sys, hs, sys'.(waiting := sys.waiting), hs', victims)
      && Queues(sys') && Live(sys', hs', kvOf)
  {
    hide Inv, PreemptOne, Evicted, StopsFirst, PreemptMany, Live, Queues, Candidates, Reverse, PreemptLoop;
    QueuesDistinct(sys);
    var candidates := Candidates(sys, sys.running);
    var newestFirst := Reverse(candidates);
    CandidatesIn(sys, sys.running);
    ReverseIn(candidates);
    k := LoopStops(sys, newestFirst, needed, []);
    assert k <= |newestFirst| by { StopsWithin(sys, newestFirst, needed, k); }
    ReversePrefix(candidates, k);
    var victims := newestFirst[..k];
    assert [] + victims == victims;
    TakeDistinct(newestFirst, k);
    forall x | x in victims ensures x in sys.running { assert x in newestFirst; }
    hs' := PreemptManyKeeps(sys, hs, kvOf, victims);
    Requeued(sys, hs, PreemptMany(sys, victims), hs', kvOf, victims);
  }

  lemma QueuesDistinct(sys: Sys)
    requires Queues(sys)
    ensures Distinct(sys.running)
  {
  }

  lemma StopsWithin(sys: Sys, newestFirst: seq<Id>, needed: int, k: nat)
    requires StopsFirst(sys, newestFirst, needed, k)
    ensures k <= |newestFirst|
  {
  }

  lemma TakeDistinct(ids: seq<Id>, k: nat)
    requires Distinct(ids) && k <= |ids|
    ensures Distinct(ids[..k])
  {
  }

  lemma Requeued(sys: Sys, hs: seq<Hist>, after: Sys, hs': seq<Hist>, kvOf: Oracle, victims: seq<Id>)
    requires Queues(sys) && Evicted(sys, hs, after, hs', victims) && Distinct(victims) && Live(after, hs', kvOf)
    requires forall x :: x in victims ==> x in sys.running
    ensures var sys' := after.(waiting := victims + after.waiting);
      && after.waiting == sys.waiting && Queues(sys') && Live(sys', hs', kvOf)
      && Evicted(sys, hs, sys'.(waiting := sys.waiting), hs', victims)
  {
    hide Inv, Lost;
    WithoutIn(sys.running, victims);
    DistinctJoin(victims, sys.waiting);
    assert after.(waiting := victims + after.waiting).(waiting := sys.waiting) == after;
  }

  // ------------------------------------------------------------------------------ try_allocate

  lemma ReleaseFrees(a: Arena, hs: seq<Hist>, kvOf: Oracle, cache: Option<nat>)
    requires Inv(a, hs, kvOf) && (cache.Some? ==> cache.value < |a.caches|)
    ensures |Release(a, cache).store.pool.free| >= |a.store.pool.free|
    ensures Release(a, cache).store.pool.blockSize == a.store.pool.blockSize
  {
    hide Inv, Bag, Others, AllHeld, P.Exact;
    if cache.Some? {
      InvHeld(a, hs, kvOf, cache.value);
      var c := a.caches[cache.value];
      P.FreeExact(a.store.pool, multiset(c.table.blocks) + Others(a, cache.value), c.table.blocks);
    }
  }

  lemma {:induction false} FreeGrows(sys: Sys, hs: seq<Hist>, kvOf: Oracle, ids: seq<Id>)
    requires Live(sys, hs, kvOf) && Distinct(ids) && forall id :: id in ids ==> id in sys.running
    ensures NumFree(PreemptMany(sys, ids)) >= NumFree(sys)
    ensures PreemptMany(sys, ids).arena.store.pool.blockSize == sys.arena.store.pool.blockSize
    decreases |ids|
  {
    hide Live, Evicted, Inv, Release;
    if ids != [] {
      var id, rest := ids[0], ids[1..];
      assert id in ids && ids == [id] + rest && id !in rest;
      LiveAt(sys, hs, kvOf, id);
      ReleaseFrees(sys.arena, hs, kvOf, sys.reqs[id].cache);
      var hs1 := PreemptOneKeeps(sys, hs, kvOf, id);
      StillRunning(sys, hs, PreemptOne(sys, id), hs1, id, rest);
      FreeGrows(PreemptOne(sys, id), hs1, kvOf, rest);
    }
  }

  lemma {:induction false} PreemptManyJoin(sys: Sys, a: seq<Id>, b: seq<Id>)
    ensures PreemptMany(sys, a + b) == PreemptMany(PreemptMany(sys, a), b)
    decreases |a|
  {
    hide PreemptOne;
    if a == [] {
      assert a + b == b;
    } else {
      assert (a + b)[1..] == a[1..] + b;
      PreemptManyJoin(PreemptOne(sys, a[0]), a[1..], b);
    }
  }

  /** Preempting more never leaves fewer blocks free. */
  lemma FreeMonotone(sys: Sys, hs: seq<Hist>, kvOf: Oracle, ids: seq<Id>, i: nat, j: nat)
    requires Live(sys, hs, kvOf) && Distinct(ids) && (forall id :: id in ids ==> id in sys.running) && i <= j <= |ids|
    ensures NumFree(PreemptMany(sys, ids[..i])) <= NumFree(PreemptMany(sys, ids[..j]))
    ensures PreemptMany(sys, ids[..j]).arena.store.pool.blockSize == sys.arena.store.pool.blockSize
  {
    hide Live, Evicted, PreemptMany;
    var a, b := ids[..i], ids[i..j];
    assert ids[..j] == a + b;
    TakeDistinct(ids, i);
    assert forall x :: x in a ==> x in ids;
    LiveFacts(sys, hs, kvOf);
    var hs1 := PreemptManyKeeps(sys, hs, kvOf, a);
    var sys1 := PreemptMany(sys, a);
    forall x | x in b ensures x in sys1.running { Survives(sys, hs, sys1, hs1, ids, i, j, x); }
    FreeGrows(sys1, hs1, kvOf, b);
    FreeGrows(sys, hs, kvOf, a);
    PreemptManyJoin(sys, a, b);
  }

  lemma Survives(sys: Sys, hs: seq<Hist>, sys1: Sys, hs1: seq<Hist>, ids: seq<Id>, i: nat, j: nat, x: Id)
    requires i <= j <= |ids| && Distinct(ids) && Distinct(sys.running) && Evicted(sys, hs, sys1, hs1, ids[..i])
    requires x in ids[i..j] && forall id :: id in ids ==> id in sys.running
    ensures x in sys1.running
  {
    WithoutIn(sys.running, ids[..i]);
    assert x in ids && x !in ids[..i];
  }

  lemma GrowthFits(a: Arena, hs: seq<Hist>, kvOf: Oracle, c: nat, n: nat)
    requires Inv(a, hs, kvOf) && c < |a.caches|
    ensures a.store.pool.blockSize > 0 && |hs| == |a.caches|
    ensures Call(a, Ensure(c, n)).result.Ok? <==> CeilDiv(n, a.store.pool.blockSize) <= |a.caches[c].table.blocks| + |a.store.pool.free|
  {
    hide Inv, Bag, Others, AllHeld, P.Exact, Rep, CeilDiv;
    InvHeld(a, hs, kvOf, c);
    EnsureCorrect(a.store, a.caches[c], Others(a, c), n, hs[c]);
  }

  /** The candidates that came after `id`. */
  ghost predicate Newer(sys: Sys, id: Id, newer: seq<Id>) {
    var newestFirst := Reverse(Candidates(sys, sys.running));
    |newer| < |newestFirst| && newer == newestFirst[..|newer|] && newestFirst[|newer|] == id
  }

  lemma NewerThan(sys: Sys, id: Id) returns (newer: seq<Id>)
    requires Queues(sys) && id in sys.running && id in sys.reqs && Preemptable(sys.reqs[id])
    ensures Newer(sys, id, newer)
  {
    hide Reverse;
    CandidatesIn(sys, sys.running);
    ReverseIn(Candidates(sys, sys.running));
    var newestFirst := Reverse(Candidates(sys, sys.running));
    assert id in newestFirst;
    var i :| 0 <= i < |newestFirst| && newestFirst[i] == id;
    newer := newestFirst[..i];
  }

  /** What growing a running request that holds a cache comes to: it grows, at once or after preempting,
      or, exactly when preempting everybody `newer` is not enough, it is itself preempted and the retry
      fails on the cache it no longer has. */
  ghost predicate GrowsOrLoses(sys: Sys, id: Id, n: nat, newer: seq<Id>)
    requires id in sys.reqs && sys.reqs[id].cache.Some? && sys.reqs[id].cache.value < |sys.arena.caches| && sys.arena.store.pool.blockSize > 0
  {
    var (after, grown) := TryAllocate(sys, id, n);
    var table := sys.arena.caches[sys.reqs[id].cache.value].table;
    var needed := CeilDiv(table.numTokens + n, sys.arena.store.pool.blockSize);
    && grown == (if needed <= |table.blocks| + NumFree(sys) || needed <= NumFree(PreemptMany(sys, newer)) then Ok(true) else Err(AttributeFault))
    && (grown.Ok? ==> GrewOwn(sys, after, id, needed))
    && if needed <= |table.blocks| + NumFree(sys) then after == sys.(arena := after.arena)
       else
         var (freed, victims) := PreemptToFree(sys, needed);
         && after == freed.(arena := after.arena)
         && (grown.Ok? <==> id !in victims)
         && (grown.Err? ==> after == freed && id in after.waiting && id !in after.running && id in after.reqs && after.reqs[id].cache == None)
  }

  /** For a running request, growing by preemption answers "no" exactly when it has no cache yet, and then
      changes nothing; otherwise it never does, but grows or loses its own cache. */
  lemma TryAllocateExact(sys: Sys, hs: seq<Hist>, kvOf: Oracle, id: Id, n: nat) returns (newer: seq<Id>)
    requires Queues(sys) && Live(sys, hs, kvOf) && id in sys.running && id in sys.reqs && Preemptable(sys.reqs[id])
    ensures Newer(sys, id, newer)
    ensures TryAllocate(sys, id, n).1 == Ok(false) <==> sys.reqs[id].cache == None
    ensures sys.reqs[id].cache == None ==> TryAllocate(sys, id, n).0 == sys
    ensures sys.reqs[id].cache.Some? ==>
      sys.reqs[id].cache.value < |sys.arena.caches| && sys.arena.store.pool.blockSize > 0 && GrowsOrLoses(sys, id, n, newer)
  {
    LiveAt(sys, hs, kvOf, id);
    LiveSize(sys, hs, kvOf);
    if sys.reqs[id].cache.Some? {
      hide Live, Queues, TryAllocate, Newer, PreemptMany;
      newer := TryAllocateHolding(sys, hs, kvOf, id, n);
    } else {
      newer := NewerThan(sys, id);
    }
  }

  lemma LiveSize(sys: Sys, hs: seq<Hist>, kvOf: Oracle)
    requires Live(sys, hs, kvOf)
    ensures sys.arena.store.pool.blockSize > 0
  {
  }

  lemma TryAllocateHolding(sys: Sys, hs: seq<Hist>, kvOf: Oracle, id: Id, n: nat) returns (newer: seq<Id>)
    requires Queues(sys) && Live(sys, hs, kvOf) && id in sys.running
    requires id in sys.reqs && Preemptable(sys.reqs[id]) && sys.reqs[id].cache.Some?
    requires sys.reqs[id].cache.value < |sys.arena.caches| && sys.arena.store.pool.blockSize > 0
    ensures Newer(sys, id, newer) && GrowsOrLoses(sys, id, n, newer)
  {
    hide Inv, GrewOwn, PreemptToFree, PreemptMany, Call, Live, Queues, Reverse, CeilDiv, Evicted, StopsFirst, Candidates;
    LiveAt(sys, hs, kvOf, id);
    newer := NewerThan(sys, id);
    var c := sys.reqs[id].cache.value;
    var table := sys.arena.caches[c].table;
    var needed := CeilDiv(table.numTokens + n, sys.arena.store.pool.blockSize);
    GrowthFits(sys.arena, hs, kvOf, c, table.numTokens + n);
    if needed > |table.blocks| + NumFree(sys) {
      var hs', k := PreemptToFreeCorrect(sys, hs, kvOf, needed);
      var (after, victims) := PreemptToFree(sys, needed);
      var newestFirst := Reverse(Candidates(sys, sys.running));
      StopsWithin(sys, newestFirst, needed, k);
      ReversePrefix(Candidates(sys, sys.running), k);
      assert victims == newestFirst[..k];
      Requester(sys, hs, kvOf, id, newer, needed, k);
      VictimsRun(sys, k);
      EvictedAt(sys, hs, kvOf, after.(waiting := sys.waiting), hs', victims, id);
      if k <= |newer| {
        LiveArena(after, hs', kvOf);
        GrowthFits(after.arena, hs', kvOf, c, TokensIn(after.arena, c) + n);
        GrowsOwn(sys, after, id, table.numTokens + n);
      } else {
        GoneFrom(sys, hs, after, hs', victims, id);
      }
    } else {
      GrowsOwn(sys, sys, id, table.numTokens + n);
    }
  }

  /** The requester still runs, unchanged but for a table that has the blocks it needed at its end. */
  ghost predicate GrewOwn(sys: Sys, after: Sys, id: Id, needed: nat)
    requires id in sys.reqs && sys.reqs[id].cache.Some? && sys.reqs[id].cache.value < |sys.arena.caches|
  {
    var c := sys.reqs[id].cache.value;
    var table := sys.arena.caches[c].table;
    && id in after.running && id in after.reqs && after.reqs[id] == sys.reqs[id]
    && c < |after.arena.caches|
    && table.blocks <= after.arena.caches[c].table.blocks
    && |after.arena.caches[c].table.blocks| == Max(|table.blocks|, needed)
    && after.arena.caches[c].table.numTokens == table.numTokens
  }

  lemma GrowsOwn(sys: Sys, mid: Sys, id: Id, n: nat)
    requires id in sys.reqs && sys.reqs[id].cache.Some? && sys.reqs[id].cache.value < |sys.arena.caches|
    requires id in mid.running && id in mid.reqs && mid.reqs[id] == sys.reqs[id]
    requires var c := sys.reqs[id].cache.value;
      && c < |mid.arena.caches| && mid.arena.caches[c] == sys.arena.caches[c]
      && mid.arena.store.pool.blockSize == sys.arena.store.pool.blockSize > 0
      && Call(mid.arena, Ensure(c, n)).result.Ok?
    ensures GrewOwn(sys, mid.(arena := Call(mid.arena, Ensure(sys.reqs[id].cache.value, n)).arena), id, CeilDiv(n, sys.arena.store.pool.blockSize))
  {
    hide CeilDiv;
  }

  lemma GoneFrom(sys: Sys, hs: seq<Hist>, after: Sys, hs': seq<Hist>, victims: seq<Id>, id: Id)
    requires Distinct(sys.running) && id in victims && after.waiting == victims + sys.waiting
    requires Evicted(sys, hs, after.(waiting := sys.waiting), hs', victims)
    ensures id in after.waiting && id !in after.running
  {
    WithoutIn(sys.running, victims);
  }

  lemma VictimsRun(sys: Sys, k: nat)
    requires Queues(sys) && k <= |Candidates(sys, sys.running)|
    ensures forall x :: x in Reverse(Candidates(sys, sys.running))[..k] ==> x in sys.running
  {
    hide Reverse;
    CandidatesIn(sys, sys.running);
    ReverseIn(Candidates(sys, sys.running));
    assert forall x :: x in Reverse(Candidates(sys, sys.running))[..k] ==> x in Reverse(Candidates(sys, sys.running));
  }

  lemma LiveArena(sys: Sys, hs: seq<Hist>, kvOf: Oracle)
    requires Live(sys, hs, kvOf)
    ensures Inv(sys.arena, hs, kvOf)
  {
  }

  lemma EvictedAt(sys: Sys, hs: seq<Hist>, kvOf: Oracle, after: Sys, hs': seq<Hist>, victims: seq<Id>, id: Id)
    requires Live(sys, hs, kvOf) && Evicted(sys, hs, after, hs', victims)
    requires id in sys.running && id in sys.reqs && sys.reqs[id].cache.Some? && sys.reqs[id].cache.value < |sys.arena.caches|
    requires forall x :: x in victims ==> x in sys.running
    ensures id in after.reqs && |after.arena.caches| == |sys.arena.caches|
    ensures id in victims ==> after.reqs[id].cache == None
    ensures id !in victims ==> after.reqs[id] == sys.reqs[id] && after.arena.caches[sys.reqs[id].cache.value] == sys.arena.caches[sys.reqs[id].cache.value]
    ensures id !in victims ==> id in after.running
  {
    hide Inv;
    WithoutIn(sys.running, victims);
  }

  lemma Requester(sys: Sys, hs: seq<Hist>, kvOf: Oracle, id: Id, newer: seq<Id>, needed: nat, k: nat)
    requires Queues(sys) && Live(sys, hs, kvOf) && Newer(sys, id, newer)
    requires var newestFirst := Reverse(Candidates(sys, sys.running));
      k <= |newestFirst| && StopsFirst(sys, newestFirst, needed, k)
    ensures var newestFirst := Reverse(Candidates(sys, sys.running));
      && (id in newestFirst[..k] <==> k > |newer|)
      && (k > |newer| <==> NumFree(PreemptMany(sys, newer)) < needed)
      && (k <= |newer| ==> NumFree(PreemptMany(sys, newestFirst[..k])) >= needed)
      && PreemptMany(sys, newestFirst[..k]).arena.store.pool.blockSize == sys.arena.store.pool.blockSize
  {
    hide Live, Queues, PreemptMany;
    QueuesDistinct(sys);
    var newestFirst := Reverse(Candidates(sys, sys.running));
    CandidatesIn(sys, sys.running);
    ReverseIn(Candidates(sys, sys.running));
    if id in newestFirst[..k] {
      var i :| 0 <= i < k && newestFirst[i] == id;
    }
    if k <= |newer| {
      FreeMonotone(sys, hs, kvOf, newestFirst, k, |newer|);
    }
    FreeMonotone(sys, hs, kvOf, newestFirst, k, k);
  }
}
