/** Scheduling decisions: what a batch is, in which order requests are admitted, and that every
    request stays in exactly one queue. */
module LifecycleProofs {
  import opened Common
  import opened Tensors
  import opened Decoders
  import opened Paging
  import opened Arenas
  import opened Requests
  import opened Scheduling
  import opened Serving

  /** Each request is in exactly one of the three queues, once. */
  ghost predicate Queues(sys: Sys) {
    && Distinct(sys.waiting) && Distinct(sys.running) && Distinct(sys.finished)
    && (forall id :: id in sys.waiting ==> id !in sys.running && id !in sys.finished)
    && (forall id :: id in sys.running ==> id !in sys.finished)
    && (forall id :: id in sys.reqs <==> id in sys.waiting || id in sys.running || id in sys.finished)
    && (forall id :: id in sys.reqs ==> sys.reqs[id].id == id)
  }

  // -------------------------------------------------------------------------------- removing

  lemma {:induction false} RemoveFacts(ids: seq<Id>, id: Id)
    requires Distinct(ids)
    ensures Distinct(Remove(ids, id))
    ensures forall x :: x in Remove(ids, id) <==> x in ids && x != id
    ensures id in ids ==> |Remove(ids, id)| == |ids| - 1
    ensures id !in ids ==> Remove(ids, id) == ids
  {
    if ids != [] {
      var rest := ids[1..];
      assert Distinct(rest);
      RemoveFacts(rest, id);
      assert ids == [ids[0]] + rest;
      if ids[0] == id {
        assert id !in rest;
      } else {
        var r := Remove(ids, id);
        forall i, j | 0 <= i < j < |r| ensures r[i] != r[j] {
          assert r[j] in Remove(rest, id) && r[j] in rest;
        }
      }
    }
  }

  // -------------------------------------------------------------------------------- schedule

  ghost function InState(reqs: map<Id, Request>, ids: seq<Id>, state: State): seq<Id> {
    if ids == [] then []
    else InState(reqs, ids[..|ids| - 1], state) + if At(reqs, ids[|ids| - 1]).state == state then [ids[|ids| - 1]] else []
  }

  ghost function Take(ids: seq<Id>, n: nat): seq<Id> {
    if n <= |ids| then ids[..n] else ids
  }

  lemma {:induction false} PickIs(cfg: Config, reqs: map<Id, Request>, done: seq<Id>, ids: seq<Id>)
    ensures Pick(cfg, reqs, ids, Batch(Take(InState(reqs, done, Prefilling), cfg.maxPrefills), InState(reqs, done, Decoding)))
         == Batch(Take(InState(reqs, done + ids, Prefilling), cfg.maxPrefills), InState(reqs, done + ids, Decoding))
    decreases |ids|
  {
    if ids == [] {
      assert done + ids == done;
    } else {
      var done' := done + [ids[0]];
      assert done' + ids[1..] == done + ids;
      InStatePush(reqs, done, ids[0], Prefilling);
      InStatePush(reqs, done, ids[0], Decoding);
      TakePush(InState(reqs, done, Prefilling), ids[0], cfg.maxPrefills);
      hide InState, Take;
      PickIs(cfg, reqs, done', ids[1..]);
    }
  }

  lemma InStatePush(reqs: map<Id, Request>, done: seq<Id>, id: Id, state: State)
    ensures InState(reqs, done + [id], state) ==
            if At(reqs, id).state == state then InState(reqs, done, state) + [id] else InState(reqs, done, state)
  {
    assert (done + [id])[..|done|] == done;
  }

  lemma TakePush(ids: seq<Id>, id: Id, n: nat)
    ensures Take(ids + [id], n) == if |Take(ids, n)| < n then Take(ids, n) + [id] else Take(ids, n)
  {
  }

  lemma {:induction false} InStateFacts(reqs: map<Id, Request>, ids: seq<Id>, state: State)
    ensures forall id :: id in InState(reqs, ids, state) <==> id in ids && At(reqs, id).state == state
    ensures Distinct(ids) ==> Distinct(InState(reqs, ids, state))
    ensures |InState(reqs, ids, state)| <= |ids|
  {
    if ids != [] {
      var n := |ids| - 1;
      InStateFacts(reqs, ids[..n], state);
      assert ids == ids[..n] + [ids[n]];
      if Distinct(ids) {
        assert Distinct(ids[..n]);
        assert ids[n] !in ids[..n];
      }
    }
  }

  /** The first `k` waiting requests, in arrival order, went to the end of `running`. */
  ghost predicate Admitted(sys: Sys, sys': Sys, k: nat) {
    && k <= |sys.waiting|
    && sys' == sys.(waiting := sys.waiting[k..], running := sys.running + sys.waiting[..k], reqs := sys'.reqs)
    && (forall id :: id in sys'.reqs <==> id in sys.reqs || id in sys.waiting[..k])
    && (forall id :: id in sys.waiting[..k] ==> sys'.reqs[id] == At(sys.reqs, id).(state := Prefilling))
    && (forall id :: id in sys.reqs && id !in sys.waiting[..k] ==> sys'.reqs[id] == sys.reqs[id])
  }

  /** What a scheduling step decides: every decoding request decodes, in running order; the oldest
      prefilling ones continue, up to the limit; and the requests admitted now join the prefills. */
  ghost predicate Decision(cfg: Config, sys: Sys, sys': Sys, b: Batch, k: nat) {
    && Admitted(sys, sys', k)
    && b.decode == InState(sys.reqs, sys.running, Decoding)
    && b.prefill == Take(InState(sys.reqs, sys.running, Prefilling), cfg.maxPrefills) + sys.waiting[..k]
  }

  /** Where admission stopped: the batch is full, the queue empty, or its head does not fit. */
  ghost predicate Stopped(cfg: Config, sys: Sys, b: Batch) {
    || sys.waiting == [] || |sys.running| >= cfg.maxBatch || |b.prefill| >= cfg.maxPrefills
    || Needed(sys, At(sys.reqs, sys.waiting[0])) > Available(cfg, sys)
  }

  /** Everybody admitted fitted, alone, in what was available. */
  ghost predicate Fitted(cfg: Config, sys: Sys, k: nat)
    requires k <= |sys.waiting|
  {
    forall i :: 0 <= i < k ==> Needed(sys, At(sys.reqs, sys.waiting[i])) <= Available(cfg, sys)
  }

  lemma {:induction false} AdmitDecides(cfg: Config, sys: Sys, b: Batch) returns (k: nat)
    requires Distinct(sys.waiting)
    ensures var (sys', b') := Admit(cfg, sys, b);
      && Admitted(sys, sys', k) && Fitted(cfg, sys, k) && Stopped(cfg, sys', b')
      && b' == b.(prefill := b.prefill + sys.waiting[..k])
      && (k > 0 ==> |sys'.running| <= cfg.maxBatch && |b'.prefill| <= cfg.maxPrefills)
    decreases |sys.waiting|
  {
    hide Admitted, Fitted;
    if Stopped(cfg, sys, b) {
      k := 0;
      NoneAdmitted(cfg, sys);
      assert b.prefill + sys.waiting[..0] == b.prefill;
    } else {
      var id := sys.waiting[0];
      var sys1 := sys.(
        waiting := sys.waiting[1..],
        reqs := sys.reqs[id := At(sys.reqs, id).(state := Prefilling)],
        running := sys.running + [id]);
      var b1 := b.(prefill := b.prefill + [id]);
      assert Distinct(sys1.waiting);
      var k1 := AdmitDecides(cfg, sys1, b1);
      k := k1 + 1;
      AdmittedCount(sys1, Admit(cfg, sys1, b1).0, k1);
      assert sys.waiting[..k] == [id] + sys1.waiting[..k1];
      assert b1.prefill + sys1.waiting[..k1] == b.prefill + sys.waiting[..k];
      AdmittedPush(cfg, sys, sys1, Admit(cfg, sys1, b1).0, k1);
    }
  }

  lemma AdmittedCount(sys: Sys, sys': Sys, k: nat)
    requires Admitted(sys, sys', k)
    ensures k <= |sys.waiting| && (k == 0 ==> sys'.running == sys.running)
  {
  }

  lemma NoneAdmitted(cfg: Config, sys: Sys)
    ensures Admitted(sys, sys, 0) && Fitted(cfg, sys, 0)
  {
    assert sys.running + sys.waiting[..0] == sys.running;
    assert sys.waiting[0..] == sys.waiting;
  }

  lemma PushSlices(waiting: seq<Id>, running: seq<Id>, k: nat)
    requires waiting != [] && k < |waiting| && Distinct(waiting)
    ensures waiting[0] !in waiting[1..][..k]
    ensures forall x :: x in waiting[..k + 1] <==> x == waiting[0] || x in waiting[1..][..k]
    ensures running + [waiting[0]] + waiting[1..][..k] == running + waiting[..k + 1]
    ensures waiting[1..][k..] == waiting[k + 1..]
  {
    assert waiting[..k + 1] == [waiting[0]] + waiting[1..][..k];
  }

  lemma AdmittedPush(cfg: Config, sys: Sys, sys1: Sys, sys': Sys, k1: nat)
    requires sys.waiting != [] && Distinct(sys.waiting)
    requires var id := sys.waiting[0];
      sys1 == sys.(
        waiting := sys.waiting[1..],
        reqs := sys.reqs[id := At(sys.reqs, id).(state := Prefilling)],
        running := sys.running + [id])
    requires Needed(sys, At(sys.reqs, sys.waiting[0])) <= Available(cfg, sys)
    requires Admitted(sys1, sys', k1) && Fitted(cfg, sys1, k1)
    ensures Admitted(sys, sys', k1 + 1) && Fitted(cfg, sys, k1 + 1)
  {
    FittedPush(cfg, sys, sys1, k1);
    hide Fitted, Needed, Available, Distinct;
    PushSlices(sys.waiting, sys.running, k1);
  }

  lemma FittedPush(cfg: Config, sys: Sys, sys1: Sys, k1: nat)
    requires sys.waiting != [] && Distinct(sys.waiting) && k1 < |sys.waiting|
    requires sys1.waiting == sys.waiting[1..] && sys1.arena == sys.arena
    requires sys1.reqs == sys.reqs[sys.waiting[0] := At(sys.reqs, sys.waiting[0]).(state := Prefilling)]
    requires Needed(sys, At(sys.reqs, sys.waiting[0])) <= Available(cfg, sys)
    requires Fitted(cfg, sys1, k1)
    ensures Fitted(cfg, sys, k1 + 1)
  {
    forall i | 0 <= i < k1 + 1 ensures Needed(sys, At(sys.reqs, sys.waiting[i])) <= Available(cfg, sys) {
      if i > 0 {
        assert sys1.waiting[i - 1] == sys.waiting[i] && sys.waiting[i] != sys.waiting[0];
      }
    }
  }

  /** Each scheduling step is such a decision, admits only what fits, keeps the limits it admits
      under, and stops where it must. */
  lemma ScheduleDecides(cfg: Config, sys: Sys) returns (k: nat)
    requires Distinct(sys.waiting)
    ensures var (sys', b) := Schedule(cfg, sys);
      && Decision(cfg, sys, sys', b, k) && Fitted(cfg, sys, k) && Stopped(cfg, sys', b)
      && (k > 0 ==> |sys'.running| <= cfg.maxBatch && |b.prefill| <= cfg.maxPrefills)
  {
    hide Admit, Stopped, Fitted, Admitted, InState;
    PickIs(cfg, sys.reqs, [], sys.running);
    EmptyInState(sys.reqs);
    assert [] + sys.running == sys.running;
    k := AdmitDecides(cfg, sys, Pick(cfg, sys.reqs, sys.running, Batch([], [])));
    AdmittedCount(sys, Schedule(cfg, sys).0, k);
  }

  /** Admission in numbers: each request admitted needs, for its prompt and everything it may generate, no more
      blocks than are free beyond the reserve; it stops at the limits or at the first that needs more. */
  lemma AdmitsWhileFits(cfg: Config, sys: Sys) returns (k: nat)
    requires Distinct(sys.waiting) && sys.arena.store.pool.blockSize > 0
    ensures var (sys', b) := Schedule(cfg, sys);
      var bs, spare := sys.arena.store.pool.blockSize, Max(0, |sys.arena.store.pool.free| - cfg.reserve);
      && k <= |sys.waiting| && sys'.waiting == sys.waiting[k..]
      && (forall i :: 0 <= i < k ==> var r := At(sys.reqs, sys.waiting[i]); CeilDiv(|r.prompt| + r.maxNew, bs) <= spare)
      && (k == |sys.waiting| || |sys'.running| >= cfg.maxBatch || |b.prefill| >= cfg.maxPrefills
          || var r := At(sys.reqs, sys.waiting[k]); CeilDiv(|r.prompt| + r.maxNew, bs) > spare)
  {
    hide InState, Admit, CeilDiv;
    k := ScheduleDecides(cfg, sys);
    var (sys', b) := Schedule(cfg, sys);
    if k < |sys.waiting| {
      assert sys.waiting[k] !in sys.waiting[..k];
      assert At(sys'.reqs, sys.waiting[k]) == At(sys.reqs, sys.waiting[k]);
    }
  }

  lemma {:induction false} RemoveIs(ids: seq<Id>, id: Id) returns (i: nat)
    requires id in ids
    ensures i < |ids| && ids[i] == id && Remove(ids, id) == ids[..i] + ids[i + 1..]
  {
    i := 0;
    if ids[0] != id {
      assert ids == [ids[0]] + ids[1..];
      var k := RemoveIs(ids[1..], id);
      i := k + 1;
      assert ids[..i] == [ids[0]] + ids[1..][..k];
    }
  }

  /** A refused request leaves the queue for the finished ones, rejected; everybody keeps their place. */
  lemma RejectKeeps(sys: Sys, id: Id)
    requires Queues(sys) && id in sys.waiting
    ensures var sys' := Reject(sys, id);
      && Queues(sys') && sys'.running == sys.running && sys'.finished == sys.finished + [id]
      && (exists i :: 0 <= i < |sys.waiting| && sys.waiting[i] == id && sys'.waiting == sys.waiting[..i] + sys.waiting[i + 1..])
      && id in sys.reqs && sys'.reqs == sys.reqs[id := sys.reqs[id].(state := Rejected)] && sys'.arena == sys.arena
  {
    RemoveFacts(sys.waiting, id);
    var i := RemoveIs(sys.waiting, id);
    DistinctJoin(sys.finished, [id]);
    assert forall x :: x in sys.finished + [id] <==> x in sys.finished || x == id;
  }

  lemma {:induction false} AdmitGrows(cfg: Config, sys: Sys, b: Batch)
    ensures b.prefill <= Admit(cfg, sys, b).1.prefill
    decreases |sys.waiting|
  {
    hide Needed, Available;
    if !(sys.waiting == [] || |sys.running| >= cfg.maxBatch || |b.prefill| >= cfg.maxPrefills)
       && Needed(sys, At(sys.reqs, sys.waiting[0])) <= Available(cfg, sys) {
      var id := sys.waiting[0];
      var sys1 := sys.(
        waiting := sys.waiting[1..],
        reqs := sys.reqs[id := At(sys.reqs, id).(state := Prefilling)],
        running := sys.running + [id]);
      AdmitGrows(cfg, sys1, b.(prefill := b.prefill + [id]));
    }
  }

  lemma EmptyInState(reqs: map<Id, Request>)
    ensures forall state :: InState(reqs, [], state) == []
  {
  }

  /** Scheduling keeps every request in exactly one queue, and the batch names running requests,
      each once: prefilling ones to prefill, decoding ones to decode. */
  lemma SchedulePartitions(cfg: Config, sys: Sys, sys': Sys, b: Batch, k: nat)
    requires Queues(sys) && Decision(cfg, sys, sys', b, k)
    ensures Queues(sys') && Distinct(b.prefill + b.decode)
    ensures forall id :: id in b.prefill + b.decode ==>
      id in sys'.running && id in sys'.reqs && sys'.reqs[id].state == if id in b.prefill then Prefilling else Decoding
    ensures forall id :: id in sys'.running && sys'.reqs[id].state == Decoding ==> id in b.decode || id !in sys.running
  {
    hide InState, Take, Distinct;
    var w := sys.waiting[..k];
    assert sys.waiting == w + sys.waiting[k..];
    InStateFacts(sys.reqs, sys.running, Prefilling);
    InStateFacts(sys.reqs, sys.running, Decoding);
    SplitDistinct(sys.waiting, k);
    var p := InState(sys.reqs, sys.running, Prefilling);
    TakeFacts(p, cfg.maxPrefills);
    forall id | id in w ensures id in sys.waiting && id !in sys.running && id !in sys.finished {}
    QueuesMoved(sys, sys', k);
    BatchDistinct(Take(p, cfg.maxPrefills), w, b.decode);
  }

  lemma SplitDistinct(ids: seq<Id>, k: nat)
    requires Distinct(ids) && k <= |ids|
    ensures Distinct(ids[..k]) && Distinct(ids[k..]) && forall id :: id in ids[..k] ==> id in ids && id !in ids[k..]
    ensures forall id :: id in ids <==> id in ids[..k] || id in ids[k..]
  {
    assert ids == ids[..k] + ids[k..];
  }

  lemma TakeFacts(ids: seq<Id>, n: nat)
    ensures forall id :: id in Take(ids, n) ==> id in ids
    ensures Distinct(ids) ==> Distinct(Take(ids, n))
  {
  }

  lemma BatchDistinct(a: seq<Id>, b: seq<Id>, c: seq<Id>)
    requires Distinct(a) && Distinct(b) && Distinct(c)
    requires forall id :: id in a ==> id !in b && id !in c
    requires forall id :: id in b ==> id !in c
    ensures Distinct(a + b + c)
  {
    DistinctJoin(a, b);
    DistinctJoin(a + b, c);
  }

  lemma DistinctJoin(a: seq<Id>, b: seq<Id>)
    requires Distinct(a) && Distinct(b) && forall id :: id in a ==> id !in b
    ensures Distinct(a + b)
  {
    var c := a + b;
    forall i, j | 0 <= i < j < |c| ensures c[i] != c[j] {
      if i < |a| <= j {
        assert c[i] in a && c[j] in b;
      }
    }
  }

  lemma QueuesMoved(sys: Sys, sys': Sys, k: nat)
    requires Queues(sys) && Admitted(sys, sys', k)
    ensures Queues(sys')
  {
    SplitDistinct(sys.waiting, k);
    DistinctJoin(sys.running, sys.waiting[..k]);
    assert forall id :: id in sys'.running <==> id in sys.running || id in sys.waiting[..k];
    forall id | id in sys.waiting[..k] ensures id in sys.reqs {}
    forall id ensures id in sys'.reqs <==> id in sys'.waiting || id in sys'.running || id in sys'.finished {}
  }
}
